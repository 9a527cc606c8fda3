/**
  `AddPoints` and `SearchKNN` of hnsw.go: validate the batch, flatten it,
  make one call into the engine, and turn the engine's answer into the Go
  result. The engine is not part of this model; each of its entry points is
  a function parameter (an oracle) that receives exactly the arguments the
  binding passes and returns whatever the engine answers. The foreign call
  that was made, if any, is returned next to the result, so that the
  contracts can say which calls are made and which are not.
 */
module Binding {
  import opened Wrappers
  import opened CTypes
  import opened Flatten
  import opened Reshape
  import opened Validation
  import opened Params

  /** What the binding reads from the engine's handle: the C field `dim`, and the answer of the getter `C.getMaxElements`. */
  datatype IndexView = IndexView(dim: CInt, maxElements: Uint64)

  /**
    Ways a call ends without returning: Go runtime panics, and a read past
    the end of a buffer the engine returned (undefined in Go's `unsafe`).
   */
  datatype Fault =
    | EmptyBufferIndex   // `&flatVectors[0]` on an empty flat buffer: index out of range
    | NegativeLength     // `make([]*SearchResult, topK)` with a negative `topK`
    | ReadPastResult     // `unsafe.Add` beyond the labels or distances the engine returned

  /** How a binding call ends: a result, a returned `error`, or a fault. */
  datatype Outcome<T> = Done(value: T) | Failed(err: BindingError) | Crashed(fault: Fault)

  /** The arguments of `C.addPoints` after the handle, in order. */
  datatype AddCall<F> = AddCall(flat: seq<F>, rows: CInt, labels: seq<Uint64>, concurrency: CInt, replace: CInt)

  /** The arguments of `C.searchKnn` after the handle, in order. */
  datatype SearchCall<F> = SearchCall(flat: seq<F>, rows: CInt, topK: CInt, concurrency: CInt)

  /** The engine's answer to a search: flat buffers of labels and distances. */
  datatype SearchReply<F> = SearchReply(labels: seq<Uint64>, dists: seq<F>)

  /**
    `AddPoints`: a batch the checks reject is answered with the first
    failing check's error and never reaches `C.addPoints`; an accepted batch
    whose flat buffer is empty panics at `&flatVectors[0]`; any other is
    flattened and passed on with its row count, labels, concurrency and
    the `replaceDeleted` flag as 1 or 0; the call succeeds exactly when the
    engine's error code is 0.
   */
  method AddPoints<F>(view: IndexView, addPoints: AddCall<F> -> CInt,
                      vectors: seq<seq<F>>, labels: seq<Uint64>, concurrency: GoInt, replaceDeleted: bool)
    returns (out: Outcome<()>, issued: Option<AddCall<F>>)
    ensures ValidateAdd(vectors, labels, view.dim).Reject? ==>
              out == Failed(ValidateAdd(vectors, labels, view.dim).err) && issued == None
    ensures ValidateAdd(vectors, labels, view.dim) == Accept && Concat(vectors) == [] ==>
              out == Crashed(EmptyBufferIndex) && issued == None
    ensures ValidateAdd(vectors, labels, view.dim) == Accept && Concat(vectors) != [] ==>
              && issued == Some(AddCall(Concat(vectors), ToCInt(|vectors|), labels,
                                        ToCInt(concurrency), EncodeBool(replaceDeleted)))
              && (out == Done(()) <==> addPoints(issued.value) == 0)
              && (out != Done(()) ==> out == Failed(AddPointFailed))
  {
    var replace := EncodeBool(replaceDeleted);
    var check := ValidateAdd(vectors, labels, view.dim);
    if check.Reject? {
      return Failed(check.err), None;
    }
    var rows := |vectors|;
    var flatVectors := Flatten2DArray(vectors);
    if |flatVectors| == 0 {
      return Crashed(EmptyBufferIndex), None;
    }
    var call := AddCall(flatVectors, ToCInt(rows), labels, ToCInt(concurrency), replace);
    var errCode := addPoints(call);
    issued := Some(call);
    if errCode != 0 {
      out := Failed(AddPointFailed);
    } else {
      out := Done(());
    }
  }

  /**
    `SearchKNN`: a batch the checks reject is answered with the first
    failing check's error and never reaches `C.searchKnn` (the check of
    `topK` reads `C.getMaxElements`, here the field `view.maxElements`); an
    accepted batch whose flat buffer is empty panics at `&flatVectors[0]`;
    any other is flattened and passed on with its row count, `topK` and
    concurrency. The
    engine's flat answer is then cut into one row of `topK` results per
    query, entry `[r][j]` from flat position `r * topK + j`.
   */
  method SearchKNN<F(0)>(view: IndexView, searchKnn: SearchCall<F> -> SearchReply<F>,
                         vectors: seq<seq<F>>, topK: GoInt, concurrency: GoInt)
    returns (out: Outcome<seq<seq<SearchResult<F>>>>, issued: Option<SearchCall<F>>)
    ensures ValidateSearch(vectors, topK, view.dim, view.maxElements).Reject? ==>
              out == Failed(ValidateSearch(vectors, topK, view.dim, view.maxElements).err) && issued == None
    ensures ValidateSearch(vectors, topK, view.dim, view.maxElements) == Accept && Concat(vectors) == [] ==>
              out == Crashed(EmptyBufferIndex) && issued == None
    ensures ValidateSearch(vectors, topK, view.dim, view.maxElements) == Accept && Concat(vectors) != [] ==>
              issued == Some(SearchCall(Concat(vectors), ToCInt(|vectors|), ToCInt(topK), ToCInt(concurrency)))
    ensures issued.Some? && topK < 0 ==> out == Crashed(NegativeLength)
    ensures issued.Some? && 0 <= topK
            && (|searchKnn(issued.value).labels| < |vectors| * topK || |searchKnn(issued.value).dists| < |vectors| * topK) ==>
              out == Crashed(ReadPastResult)
    ensures issued.Some? && 0 <= topK
            && |vectors| * topK <= |searchKnn(issued.value).labels| && |vectors| * topK <= |searchKnn(issued.value).dists| ==>
              out.Done? && ReshapeOf(out.value, searchKnn(issued.value).labels, searchKnn(issued.value).dists, |vectors|, topK)
    ensures out.Done? ==> issued.Some? && 0 <= topK <= view.maxElements
  {
    var check := ValidateSearch(vectors, topK, view.dim, view.maxElements);
    if check.Reject? {
      return Failed(check.err), None;
    }
    var rows := |vectors|;
    var flatVectors := Flatten2DArray(vectors);
    if |flatVectors| == 0 {
      return Crashed(EmptyBufferIndex), None;
    }
    var call := SearchCall(flatVectors, ToCInt(rows), ToCInt(topK), ToCInt(concurrency));
    var reply := searchKnn(call);
    issued := Some(call);
    if topK < 0 {
      out := Crashed(NegativeLength);
    } else if |reply.labels| < rows * topK || |reply.dists| < rows * topK {
      out := Crashed(ReadPastResult);
    } else {
      var results := ReshapeResults(reply.labels, reply.dists, rows, topK);
      out := Done(results);
    }
  }
}
