/**
  The result reshaping of `SearchKNN` in hnsw.go: the engine answers a batch
  of `rows` queries with two flat buffers of `rows * topK` labels and
  distances, and the binding turns them into `rows` rows of `topK` results,
  entry `[r][j]` coming from flat position `r * topK + j`.
 */
module Reshape {
  import opened CTypes
  import opened Flatten

  /** One hit (`SearchResult` in Go): the label of a stored vector and its distance to the query. */
  datatype SearchResult<F> = SearchResult(externalLabel: Uint64, distance: F)

  /** `hit` is made of the label and the distance at flat position `p`. */
  ghost predicate EntryAt<F>(hit: SearchResult<F>, labels: seq<Uint64>, dists: seq<F>, p: nat)
  {
    p < |labels| && p < |dists| && hit == SearchResult(labels[p], dists[p])
  }

  /** `row` is the `r`-th row of `topK` results read from the flat buffers. */
  ghost predicate RowFrom<F>(row: seq<SearchResult<F>>, labels: seq<Uint64>, dists: seq<F>, r: nat, topK: nat)
  {
    && |row| == topK
    && forall j :: 0 <= j < topK ==> EntryAt(row[j], labels, dists, r * topK + j)
  }

  /** `results` has `rows` rows of `topK` results, entry `[r][j]` taken from flat position `r * topK + j`. */
  ghost predicate ReshapeOf<F>(results: seq<seq<SearchResult<F>>>, labels: seq<Uint64>, dists: seq<F>, rows: nat, topK: nat)
  {
    && |results| == rows
    && forall r :: 0 <= r < rows ==> RowFrom(results[r], labels, dists, r, topK)
  }

  /** The labels of the results, row by row. */
  function LabelRows<F>(results: seq<seq<SearchResult<F>>>): seq<seq<Uint64>>
  {
    seq(|results|, r requires 0 <= r < |results| =>
      seq(|results[r]|, j requires 0 <= j < |results[r]| => results[r][j].externalLabel))
  }

  /** The distances of the results, row by row. */
  function DistanceRows<F>(results: seq<seq<SearchResult<F>>>): seq<seq<F>>
  {
    seq(|results|, r requires 0 <= r < |results| =>
      seq(|results[r]|, j requires 0 <= j < |results[r]| => results[r][j].distance))
  }

  /** Row `r` of `rows` rows of width `topK` lies inside the first `rows * topK` positions. */
  lemma FlatIndexInRange(rows: nat, topK: nat, r: nat, j: nat)
    requires r < rows && j < topK
    ensures r * topK + j < rows * topK
  {
    assert (r + 1) * topK <= rows * topK;
  }

  /**
    A `rows x topK` table whose entry `[i][j]` is `flat[i * topK + j]` is the
    first `rows * topK` entries of `flat`, cut into rows.
   */
  lemma ConcatPrefix<T>(table: seq<seq<T>>, flat: seq<T>, rows: nat, topK: nat)
    requires |table| == rows && Rectangular(table, topK)
    requires forall i, j :: 0 <= i < rows && 0 <= j < topK ==> AtRowMajor(table, topK, flat, i, j)
    ensures rows * topK <= |flat|
    ensures Concat(table) == flat[..rows * topK]
  {
    PrefixBound(table, flat, rows, topK);
    var prefix := flat[..rows * topK];
    forall i, j | 0 <= i < rows && 0 <= j < topK
      ensures AtRowMajor(table, topK, prefix, i, j)
    {
      CellInPrefix(table, flat, rows, topK, i, j);
    }
    ConcatUnique(table, topK, prefix);
  }

  lemma CellInPrefix<T>(table: seq<seq<T>>, flat: seq<T>, rows: nat, topK: nat, i: nat, j: nat)
    requires i < rows && j < topK && rows * topK <= |flat|
    requires AtRowMajor(table, topK, flat, i, j)
    ensures AtRowMajor(table, topK, flat[..rows * topK], i, j)
  {
    FlatIndexInRange(rows, topK, i, j);
  }

  lemma PrefixBound<T>(table: seq<seq<T>>, flat: seq<T>, rows: nat, topK: nat)
    requires |table| == rows && Rectangular(table, topK)
    requires forall i, j :: 0 <= i < rows && 0 <= j < topK ==> AtRowMajor(table, topK, flat, i, j)
    ensures rows * topK <= |flat|
  {
    if rows > 0 && topK > 0 {
      assert AtRowMajor(table, topK, flat, rows - 1, topK - 1);
      assert rows * topK == (rows - 1) * topK + topK;
    }
  }

  /**
    Reshaping loses nothing and invents nothing: flattening the reshaped
    labels (distances) again gives back the first `rows * topK` labels
    (distances) the engine returned.
   */
  lemma ReshapeThenConcat<F>(results: seq<seq<SearchResult<F>>>, labels: seq<Uint64>, dists: seq<F>, rows: nat, topK: nat)
    requires ReshapeOf(results, labels, dists, rows, topK)
    ensures rows * topK <= |labels| && rows * topK <= |dists|
    ensures Concat(LabelRows(results)) == labels[..rows * topK]
    ensures Concat(DistanceRows(results)) == dists[..rows * topK]
  {
    var ls, ds := LabelRows(results), DistanceRows(results);
    forall i, j | 0 <= i < rows && 0 <= j < topK
      ensures AtRowMajor(ls, topK, labels, i, j) && AtRowMajor(ds, topK, dists, i, j)
    {
      assert RowFrom(results[i], labels, dists, i, topK);
      assert EntryAt(results[i][j], labels, dists, i * topK + j);
    }
    assert |ls| == rows && Rectangular(ls, topK);
    assert |ds| == rows && Rectangular(ds, topK);
    ConcatPrefix(ls, labels, rows, topK);
    ConcatPrefix(ds, dists, rows, topK);
  }

  /**
    Conversely, any `rows x topK` table of results is the reshaping of its
    own flattened labels and distances.
   */
  lemma ConcatThenReshape<F>(results: seq<seq<SearchResult<F>>>, topK: nat)
    requires Rectangular(results, topK)
    ensures ReshapeOf(results, Concat(LabelRows(results)), Concat(DistanceRows(results)), |results|, topK)
  {
    var ls, ds := LabelRows(results), DistanceRows(results);
    assert Rectangular(ls, topK) && Rectangular(ds, topK);
    forall r | 0 <= r < |results|
      ensures RowFrom(results[r], Concat(ls), Concat(ds), r, topK)
    {
      RowIntro(results, ls, ds, r, topK);
    }
  }

  lemma RowIntro<F>(results: seq<seq<SearchResult<F>>>, ls: seq<seq<Uint64>>, ds: seq<seq<F>>, r: nat, topK: nat)
    requires Rectangular(results, topK) && r < |results|
    requires ls == LabelRows(results) && ds == DistanceRows(results)
    ensures RowFrom(results[r], Concat(ls), Concat(ds), r, topK)
  {
    assert Rectangular(ls, topK) && Rectangular(ds, topK);
    forall j | 0 <= j < topK
      ensures EntryAt(results[r][j], Concat(ls), Concat(ds), r * topK + j)
    {
      RowMajor(ls, topK, r, j);
      RowMajor(ds, topK, r, j);
      assert ls[r][j] == results[r][j].externalLabel;
      assert ds[r][j] == results[r][j].distance;
    }
    assert |results[r]| == topK;
  }

  /**
    The nested loops of `SearchKNN`: allocate `rows` row slots, and for each
    row allocate `topK` entries and fill entry `j` from flat position
    `rowID * topK + j` of both buffers. The source reads the buffers
    without bounds checks, so it relies on the engine having returned at
    least `rows * topK` of each.
   */
  method ReshapeResults<F(0)>(labels: seq<Uint64>, dists: seq<F>, rows: nat, topK: nat)
    returns (results: seq<seq<SearchResult<F>>>)
    requires rows * topK <= |labels| && rows * topK <= |dists|
    ensures ReshapeOf(results, labels, dists, rows, topK)
  {
    var table := new seq<SearchResult<F>>[rows];
    var rowID := 0;
    while rowID < rows
      modifies table
      invariant 0 <= rowID <= rows
      invariant forall r :: 0 <= r < rowID ==> RowFrom(table[r], labels, dists, r, topK)
    {
      var rowTopk := new SearchResult<F>[topK];
      var base := rowID * topK;
      var j := 0;
      while j < topK
        modifies rowTopk
        invariant 0 <= j <= topK
        invariant forall k :: 0 <= k < j ==> EntryAt(rowTopk[k], labels, dists, base + k)
      {
        FlatIndexInRange(rows, topK, rowID, j);
        rowTopk[j] := SearchResult(labels[base + j], dists[base + j]);
        j := j + 1;
      }
      assert RowFrom(rowTopk[..], labels, dists, rowID, topK);
      table[rowID] := rowTopk[..];
      rowID := rowID + 1;
    }
    results := table[..];
  }
}
