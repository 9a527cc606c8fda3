/**
  `flatten2DArray` of hnsw.go: a batch of vectors, one row per vector, laid
  out as one row-major buffer so that it can be handed to the engine as a
  single `float*`. The element type `F` stands for `float32`, which is only
  copied, never computed on.
 */
module Flatten {

  /** The rows laid end to end, in order: what the flat buffer must hold. */
  function Concat<F>(rows: seq<seq<F>>): seq<F>
  {
    if rows == [] then [] else rows[0] + Concat(rows[1..])
  }

  /** The sum of the row lengths. */
  function TotalLength<F>(rows: seq<seq<F>>): nat
  {
    if rows == [] then 0 else |rows[0]| + TotalLength(rows[1..])
  }

  /** Every row has exactly `dim` entries. */
  predicate Rectangular<F>(rows: seq<seq<F>>, dim: nat)
  {
    forall i :: 0 <= i < |rows| ==> |rows[i]| == dim
  }

  /** Entry `j` of row `i` sits at row-major position `i * dim + j` of `flat`. */
  ghost predicate AtRowMajor<F>(rows: seq<seq<F>>, dim: nat, flat: seq<F>, i: nat, j: nat)
  {
    i < |rows| && j < |rows[i]| && i * dim + j < |flat| && flat[i * dim + j] == rows[i][j]
  }

  /** The flat buffer is as long as all the rows together. */
  lemma {:induction false} ConcatLength<F>(rows: seq<seq<F>>)
    ensures |Concat(rows)| == TotalLength(rows)
  {
    if rows != [] {
      ConcatLength(rows[1..]);
    }
  }

  /** For a rectangular batch, that length is `rows * dim`. */
  lemma {:induction false} TotalLengthRectangular<F>(rows: seq<seq<F>>, dim: nat)
    requires Rectangular(rows, dim)
    ensures TotalLength(rows) == |rows| * dim
  {
    if rows != [] {
      TotalLengthRectangular(rows[1..], dim);
      assert |rows| * dim == dim + (|rows| - 1) * dim;
    }
  }

  /** Appending a row to the batch appends it to the flat buffer. */
  lemma {:induction false} ConcatAppend<F>(a: seq<seq<F>>, b: seq<seq<F>>)
    ensures Concat(a + b) == Concat(a) + Concat(b)
  {
    if a == [] {
      assert a + b == b;
    } else {
      assert (a + b)[1..] == a[1..] + b;
      ConcatAppend(a[1..], b);
    }
  }

  /**
    Entry `j` of row `i` sits in the flat buffer right after all the entries
    of the rows before row `i`.
   */
  lemma {:induction false} ConcatAt<F>(rows: seq<seq<F>>, i: nat, j: nat)
    requires i < |rows| && j < |rows[i]|
    ensures TotalLength(rows[..i]) + j < |Concat(rows)|
    ensures Concat(rows)[TotalLength(rows[..i]) + j] == rows[i][j]
  {
    ConcatLength(rows);
    if i == 0 {
      assert rows[..0] == [];
    } else {
      ConcatAt(rows[1..], i - 1, j);
      assert rows[..i][1..] == rows[1..][..i - 1];
    }
  }

  /**
    Row-major order: for a batch of `|rows|` vectors of dimension `dim`, flat
    entry `i * dim + j` is entry `j` of vector `i`.
   */
  lemma RowMajor<F>(rows: seq<seq<F>>, dim: nat, i: nat, j: nat)
    requires Rectangular(rows, dim) && i < |rows| && j < dim
    ensures |Concat(rows)| == |rows| * dim
    ensures i * dim + j < |rows| * dim
    ensures AtRowMajor(rows, dim, Concat(rows), i, j)
  {
    ConcatLength(rows);
    TotalLengthRectangular(rows, dim);
    assert Rectangular(rows[..i], dim);
    TotalLengthRectangular(rows[..i], dim);
    ConcatAt(rows, i, j);
  }

  /**
    A buffer of `|rows| * dim` entries that agrees with `rows` at every
    row-major position is the flat buffer of `rows`.
   */
  lemma ConcatUnique<F>(rows: seq<seq<F>>, dim: nat, flat: seq<F>)
    requires Rectangular(rows, dim) && |flat| == |rows| * dim
    requires forall i, j :: 0 <= i < |rows| && 0 <= j < dim ==> AtRowMajor(rows, dim, flat, i, j)
    ensures Concat(rows) == flat
  {
    ConcatLength(rows);
    TotalLengthRectangular(rows, dim);
    forall p | 0 <= p < |flat|
      ensures Concat(rows)[p] == flat[p]
    {
      ConcatUniqueAt(rows, dim, flat, p);
    }
  }

  lemma ConcatUniqueAt<F>(rows: seq<seq<F>>, dim: nat, flat: seq<F>, p: nat)
    requires Rectangular(rows, dim) && |flat| == |rows| * dim && p < |flat|
    requires forall i, j :: 0 <= i < |rows| && 0 <= j < dim ==> AtRowMajor(rows, dim, flat, i, j)
    ensures p < |Concat(rows)| && Concat(rows)[p] == flat[p]
  {
    DivisionBound(p, dim, |rows|);
    var i, j := p / dim, p % dim;
    RowMajor(rows, dim, i, j);
    assert AtRowMajor(rows, dim, flat, i, j);
  }

  /** A position below `n * d` lies in one of the first `n` rows of width `d`. */
  lemma DivisionBound(p: nat, d: nat, n: nat)
    requires p < n * d
    ensures d > 0 && p / d < n && p == (p / d) * d + p % d && p % d < d
  {
  }

  /**
    The loop of `flatten2DArray`: start from an empty buffer and append the
    vectors one after the other. The source reads `vectors[0]` for its
    capacity hint, so it demands a non-empty batch.
   */
  method Flatten2DArray<F>(vectors: seq<seq<F>>) returns (flat: seq<F>)
    requires |vectors| > 0
    ensures flat == Concat(vectors)
    ensures |flat| == TotalLength(vectors)
    ensures Rectangular(vectors, |vectors[0]|) ==> |flat| == |vectors| * |vectors[0]|
  {
    flat := [];
    var i := 0;
    while i < |vectors|
      invariant 0 <= i <= |vectors|
      invariant flat == Concat(vectors[..i])
    {
      ConcatAppend(vectors[..i], [vectors[i]]);
      assert vectors[..i + 1] == vectors[..i] + [vectors[i]];
      assert Concat([vectors[i]]) == vectors[i] + Concat([]);
      flat := flat + vectors[i];
      i := i + 1;
    }
    assert vectors[..i] == vectors;
    ConcatLength(vectors);
    if Rectangular(vectors, |vectors[0]|) {
      TotalLengthRectangular(vectors, |vectors[0]|);
    }
  }
}
