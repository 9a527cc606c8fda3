# hnswgo binding layer in Dafny

hnswgo exposes a C/C++ HNSW (hierarchical navigable small world) index to Go.
The index itself — graph, insertion, beam search, tombstones, persistence —
lives behind `hnsw_wrapper.h` and is not part of this model. What is modelled
is the Go side of `hnsw.go`: the work it does before and after each call into
the engine.

- **Input checks** of `AddPoints` and `SearchKNN` (`Validation`): the ordered
  chain of checks that ends a call with an `error` before the engine is
  reached.
- **`flatten2DArray`** (`Flatten`): a batch of vectors appended row by row into
  one row-major buffer, as a loop over a growing sequence, proved equal to
  the concatenation of the rows, with its length and row-major indexing.
- **Result reshaping** (`Reshape`): the nested loops of `SearchKNN` that fill
  freshly allocated arrays, one row of `topK` results per query, entry
  `[r][j]` from flat position `r * topK + j`; proved to lose and invent
  nothing (flattening the rows gives the engine's buffers back, and any
  rectangular table is the reshaping of its own flattening).
- **Parameter encoding** (`Params`): `SpaceType` to the C enum with its `l2`
  fallback, `bool` to `1`/`0` and back, and the argument records of
  `C.newIndex` and `C.loadIndex`.
- **The two batch calls** (`Binding`): `AddPoints` and `SearchKNN` as methods
  that validate, flatten, make one foreign call and build the result.

The engine's entry points `C.addPoints` and `C.searchKnn` are function
parameters (oracles): they receive exactly the arguments the binding passes
(a record of the call) and answer an error code, or flat label and distance
buffers. Each method also returns the call it made, if any, so its contract
can say that a rejected batch never reaches the engine. Vectors and distances
(`float32`) are a type parameter `F`: they are only copied. Go's `int`, C's
`int` and `size_t`/`uint64` are subset types of `int` (`CTypes`), and the
conversions `C.int(x)` and `uint64(x)` wrap around explicitly.

Go runtime panics and undefined reads are modelled as an outcome `Crashed`:

- `&flatVectors[0]` on an empty flat buffer, which happens when the index
  dimension is 0 and every vector is empty (index out of range);
- `make([]*SearchResult, topK)` with a negative `topK`, reachable only when
  `maxElements` is at least `2^63`, because the check compares
  `uint64(topK)`;
- reading past the end of the label or distance buffer the engine returned
  (`unsafe.Add` without a bound).

Two narrow spots of the checks are kept as the code has them: only the first
vector's length is compared with the index dimension (a ragged batch is
accepted and passed on), and `SearchKNN` checks `topK` against
`maxElements`, not against `ef`.

## Model

| member | source | states |
|---|---|---|
| `Flatten.Flatten2DArray` | hnsw.go:136-146 | the appending loop produces the rows laid end to end in order; its length is the sum of the row lengths, and `rows * dim` (the capacity the source reserves) when every row has the first row's length; needs a non-empty batch, as the source reads `vectors[0]` |
| `Flatten.ConcatLength` | hnsw.go:141-143 | the flat buffer is exactly as long as all the rows together |
| `Flatten.TotalLengthRectangular` | hnsw.go:137-139 | for a batch of `rows` vectors of dimension `dim` the flat length is `rows * dim` |
| `Flatten.ConcatAppend` | hnsw.go:141-143 | appending rows to the batch appends their entries to the flat buffer, in order (one `append(flatVectors, vector...)` step) |
| `Flatten.ConcatAt` | hnsw.go:141-143 | entry `j` of row `i` sits in the flat buffer right after all the entries of the rows before row `i` |
| `Flatten.RowMajor` | hnsw.go:136-146 | for a rectangular batch, flat entry `i * dim + j` is entry `j` of vector `i` |
| `Flatten.ConcatUnique` | hnsw.go:136-146 | a buffer of `rows * dim` entries that agrees with the batch at every row-major position is its flat buffer |
| `Reshape.ReshapeResults` | hnsw.go:172-182 | the nested loops over preallocated arrays yield `rows` rows of `topK` results, entry `[r][j]` with the label and distance at flat position `r * topK + j`; relies on the engine having returned at least `rows * topK` of each |
| `Reshape.ReshapeThenConcat` | hnsw.go:172-182 | flattening the reshaped labels (distances) gives back exactly the first `rows * topK` labels (distances) of the engine's buffers |
| `Reshape.ConcatThenReshape` | hnsw.go:172-182 | any table of rows of `topK` results is the reshaping of its own flattened labels and distances |
| `Validation.ValidateAddCases` | hnsw.go:105-115 | `AddPoints` reports "invalid vector data" exactly when vectors or labels are empty, whatever else is wrong; the size mismatch exactly when both are non-empty and of different lengths; the dimension error exactly when the sizes match and the first vector's length differs from the index dimension; and accepts otherwise |
| `Validation.ValidateSearchCases` | hnsw.go:149-159 | `SearchKNN` reports an empty batch first, then a first-vector dimension mismatch, then `topK` above `maxElements` compared as unsigned 64-bit numbers (a negative `topK` passes only if `topK + 2^64 <= maxElements`); accepts otherwise |
| `Validation.NegativeTopKRejected` | hnsw.go:157-159 | a negative `topK` is rejected as too large whenever `maxElements < 2^63` |
| `Validation.AddChecksFirstVectorOnly` | hnsw.go:113-115 | the `AddPoints` verdict depends on the vectors only through their number and the first vector's length |
| `Validation.SearchChecksFirstVectorOnly` | hnsw.go:153-155 | the `SearchKNN` verdict depends on the vectors only through their number and the first vector's length |
| `Validation.MessagesDistinct` | hnsw.go:105-158 | the binding's error messages are pairwise different, so a caller can tell the errors apart |
| `Params.SpaceRoundTrip` | hnsw.go:37-45 | `L2`, `IP` and `Cosine` become `l2`, `ip` and `cosine` and are told apart; every C metric is reachable |
| `Params.UnknownSpaceIsL2` | hnsw.go:60-68 | any other `SpaceType` value is passed to the engine as `l2` |
| `Params.FlagRoundTrip` | hnsw.go:32-35 | `allowReplaceDeleted` is passed as 1 when set and 0 when not, and the decoding of `GetAllowReplaceDeleted` (`> 0`) turns that encoding back into the flag; that the engine hands back the value it was given is not part of this model |
| `Params.NewArgsFaithful` | hnsw.go:31-47 | `New` passes dimension, `M`, `efConstruction`, seed and `maxElements` unchanged when they fit in a C `int`, with the metric and the flag encoded as above |
| `Params.LoadAgreesWithNew` | hnsw.go:54-73 | `Load` passes the location, and encodes metric, dimension, `maxElements` and flag exactly as `New` does; this holds by construction, because the two `switch` statements (hnsw.go:37-45, 60-68) and the two flag encodings (32-35, 55-58) are the same text and are modelled once, by `EncodeSpace` and `EncodeBool` |
| `CTypes.ToCInt` | hnsw.go:47 | `C.int(x)` leaves values that fit unchanged and otherwise agrees with `x` modulo `2^32` |
| `CTypes.ToUint64` | hnsw.go:157 | `uint64(x)` leaves non-negative values unchanged and maps a negative `x` to `x + 2^64`, at least `2^63` |
| `Binding.AddPoints` | hnsw.go:99-133 | a rejected batch returns the first failing check's error and makes no call to `C.addPoints`; an accepted batch with a non-empty flat buffer calls the engine once with the flattened vectors, `C.int` of the row count, the labels, the concurrency and the flag as 1/0, and returns nil exactly when the error code is 0, otherwise "add point failed"; an empty flat buffer panics before the call |
| `Binding.SearchKNN` | hnsw.go:148-186 | a rejected batch returns the first failing check's error and makes no call to `C.searchKnn`; an accepted batch whose flat buffer is empty (index dimension 0, every vector empty) panics before the call; any other accepted batch calls `C.searchKnn` once with the flattened vectors, `C.int` of the row count, `topK` and the concurrency; a negative `topK` then panics, a short answer is a read past the engine's buffers, and otherwise the result is `rows` rows of `topK` hits, entry `[r][j]` from flat position `r * topK + j`; a result is only ever returned for `0 <= topK <= maxElements` |

## Left out

- The HNSW engine behind `hnsw_wrapper.h` (graph, layer assignment, neighbour selection, beam search, tombstones, slot reuse, the file format): its code is not part of this model; `C.addPoints` and `C.searchKnn` are oracles that may answer anything.
- `SetEf`, `IndexFileSize`, `Save`, `MarkDeleted`, `UnmarkDeleted`, `ResizeIndex`, `GetMaxElements`, `GetCurrentCount`, `Free`: each is a single foreign call with a plain argument conversion and no logic of its own on the Go side.
- `GetDataByLabel`: it passes the address of the Go slice header to C, so its result depends entirely on what foreign code writes into Go memory.
- `New` and `Load` themselves: only the arguments they build (`Params.NewArgs`, `Params.LoadArgs`) are modelled; the handle returned by `C.newIndex`/`C.loadIndex` is represented by what the batch calls read from it (`Binding.IndexView`).
- The `concurrency` argument is only converted with `C.int` and passed on; the fan-out happens in foreign code.
- `C.free` for paths and `defer C.freeResult`: memory management.
- `Params.LoadArgs`: models the location as the Go `string` passed whole; `C.CString` gives C a NUL-terminated copy of its bytes, so the engine reads the path as bytes and only up to its first NUL byte, which the model does not capture.
- `C.getMaxElements`: a foreign getter that `SearchKNN` calls before its `topK` check; the model reads its answer as the field `maxElements` of `Binding.IndexView`, so "no foreign call" in the contracts means no call to `C.addPoints` or `C.searchKnn`.
- The byte arithmetic with `unsafe.Pointer`, `unsafe.Add`, `C.sizeof_ulong` and `C.sizeof_float`: modelled as indexing into the flat label and distance sequences.
- The result rows hold references (`*SearchResult`) to fresh structs; the model holds the `SearchResult` values.
- Float semantics: vectors and distances are an uninterpreted type parameter.
- What the engine does with a ragged batch, or with a row count or `topK` that `C.int` wrapped around: the model records the call the binding makes and checks the Go-side reads against the engine's answer, but cannot say what foreign code reads.
