/**
  The input checks that `AddPoints` and `SearchKNN` of hnsw.go run, in
  order, before any call into the engine. Each check that fails ends the
  call with a Go `error`; the errors are named here by their messages.
 */
module Validation {
  import opened CTypes

  /** The errors the binding itself returns. */
  datatype BindingError =
    | InvalidVectorData      // "invalid vector data"
    | UnmatchedSizes         // "unmatched vectors size and labels size"
    | UnmatchedDimensions    // "unmatched dimensions of vector and index"
    | TopKTooLarge           // "topK is larger than maxElements"
    | AddPointFailed         // "add point failed, check logged error to see details"

  /** The text of each error, as the binding returns it. */
  function Message(e: BindingError): string
  {
    match e
    case InvalidVectorData => "invalid vector data"
    case UnmatchedSizes => "unmatched vectors size and labels size"
    case UnmatchedDimensions => "unmatched dimensions of vector and index"
    case TopKTooLarge => "topK is larger than maxElements"
    case AddPointFailed => "add point failed, check logged error to see details"
  }

  /** The verdict of a chain of checks: go on, or stop with the first error. */
  datatype Check = Accept | Reject(err: BindingError)

  /**
    The checks of `AddPoints`: a non-empty batch, as many labels as vectors,
    and a first vector of the index's dimension `dim`.
   */
  function ValidateAdd<F>(vectors: seq<seq<F>>, labels: seq<Uint64>, dim: int): Check
  {
    if |vectors| <= 0 || |labels| <= 0 then Reject(InvalidVectorData)
    else if |labels| != |vectors| then Reject(UnmatchedSizes)
    else if |vectors[0]| != dim then Reject(UnmatchedDimensions)
    else Accept
  }

  /**
    The checks of `SearchKNN`: a non-empty batch, a first vector of the
    index's dimension, and `topK` at most `maxElements`, both read as
    unsigned 64-bit numbers.
   */
  function ValidateSearch<F>(vectors: seq<seq<F>>, topK: GoInt, dim: int, maxElements: Uint64): Check
  {
    if |vectors| <= 0 then Reject(InvalidVectorData)
    else if |vectors[0]| != dim then Reject(UnmatchedDimensions)
    else if ToUint64(topK) > maxElements then Reject(TopKTooLarge)
    else Accept
  }

  /** Every error has its own message. */
  lemma MessagesDistinct(e1: BindingError, e2: BindingError)
    ensures Message(e1) == Message(e2) <==> e1 == e2
  {
    // the five messages have five different lengths
  }

  /**
    `AddPoints`, check by check: an empty batch or an empty label list is
    reported first, whatever else is wrong; a length mismatch between two
    non-empty lists next; the dimension of the first vector last.
   */
  lemma ValidateAddCases<F>(vectors: seq<seq<F>>, labels: seq<Uint64>, dim: int)
    ensures (ValidateAdd(vectors, labels, dim) == Reject(InvalidVectorData))
      <==> (|vectors| == 0 || |labels| == 0)
    ensures (ValidateAdd(vectors, labels, dim) == Reject(UnmatchedSizes))
      <==> (|vectors| > 0 && |labels| > 0 && |labels| != |vectors|)
    ensures (ValidateAdd(vectors, labels, dim) == Reject(UnmatchedDimensions))
      <==> (|vectors| > 0 && |labels| == |vectors| && |vectors[0]| != dim)
    ensures (ValidateAdd(vectors, labels, dim) == Accept)
      <==> (|vectors| > 0 && |labels| == |vectors| && |vectors[0]| == dim)
    ensures ValidateAdd(vectors, labels, dim).Reject? ==>
              ValidateAdd(vectors, labels, dim).err in {InvalidVectorData, UnmatchedSizes, UnmatchedDimensions}
  {
  }

  /**
    `SearchKNN`, check by check: an empty batch first, then the dimension of
    the first vector, then `topK` against `maxElements` as unsigned numbers,
    so a negative `topK` passes only when `maxElements` is at least
    `topK + 2^64`.
   */
  lemma ValidateSearchCases<F>(vectors: seq<seq<F>>, topK: GoInt, dim: int, maxElements: Uint64)
    ensures (ValidateSearch(vectors, topK, dim, maxElements) == Reject(InvalidVectorData))
      <==> (|vectors| == 0)
    ensures (ValidateSearch(vectors, topK, dim, maxElements) == Reject(UnmatchedDimensions))
      <==> (|vectors| > 0 && |vectors[0]| != dim)
    ensures (ValidateSearch(vectors, topK, dim, maxElements) == Reject(TopKTooLarge))
      <==> (|vectors| > 0 && |vectors[0]| == dim
            && !(0 <= topK <= maxElements || topK + TWO_TO_64 <= maxElements))
    ensures (ValidateSearch(vectors, topK, dim, maxElements) == Accept)
      <==> (|vectors| > 0 && |vectors[0]| == dim
            && (0 <= topK <= maxElements || topK + TWO_TO_64 <= maxElements))
  {
  }

  /**
    A negative `topK` is turned away unless `maxElements` is at least 2^63,
    since `uint64(topK)` is then at least 2^63.
   */
  lemma NegativeTopKRejected<F>(vectors: seq<seq<F>>, topK: GoInt, dim: int, maxElements: Uint64)
    requires |vectors| > 0 && |vectors[0]| == dim
    requires topK < 0 && maxElements < TWO_TO_63
    ensures ValidateSearch(vectors, topK, dim, maxElements) == Reject(TopKTooLarge)
  {
  }

  /**
    Only the first vector's length is compared with the index dimension: two
    batches with the same number of vectors and the same first-vector length
    get the same verdict, whatever the lengths of the later vectors.
   */
  lemma AddChecksFirstVectorOnly<F>(v1: seq<seq<F>>, v2: seq<seq<F>>, labels: seq<Uint64>, dim: int)
    requires |v1| == |v2| && (|v1| > 0 ==> |v1[0]| == |v2[0]|)
    ensures ValidateAdd(v1, labels, dim) == ValidateAdd(v2, labels, dim)
  {
  }

  /** The same holds for the checks of `SearchKNN`. */
  lemma SearchChecksFirstVectorOnly<F>(v1: seq<seq<F>>, v2: seq<seq<F>>, topK: GoInt, dim: int, maxElements: Uint64)
    requires |v1| == |v2| && (|v1| > 0 ==> |v1[0]| == |v2[0]|)
    ensures ValidateSearch(v1, topK, dim, maxElements) == ValidateSearch(v2, topK, dim, maxElements)
  {
  }

  /**
    So a ragged batch gets through both: here the second vector is shorter
    than the index dimension.
   */
  lemma RaggedBatchAccepted<F>(x: F)
    ensures ValidateAdd([[x], []], [7, 8], 1) == Accept
    ensures ValidateSearch([[x], []], 1, 1, 1) == Accept
  {
  }
}
