/**
  How `New` and `Load` of hnsw.go encode their parameters for the engine:
  the Go `SpaceType` becomes the C enum `spaceType`, the flag
  `allowReplaceDeleted` becomes a C `int`, and the numbers are converted to
  C's `int` and `size_t`. `GetAllowReplaceDeleted` reads the flag back.
 */
module Params {
  import opened CTypes

  /** Go's `SpaceType` is a named `int`; its declared constants are these three. */
  const L2: GoInt := 0
  const IP: GoInt := 1
  const Cosine: GoInt := 2

  /** The C enum `spaceType` of the engine's interface. */
  datatype CSpaceType = CL2 | CIP | CCosine

  /** The `switch` of `New` and `Load`: `sType` starts as `l2` and is kept for any other value. */
  function EncodeSpace(spaceType: GoInt): CSpaceType
  {
    if spaceType == L2 then CL2
    else if spaceType == IP then CIP
    else if spaceType == Cosine then CCosine
    else CL2
  }

  /** The Go constant that names each C metric. */
  function SpaceName(c: CSpaceType): GoInt
  {
    match c
    case CL2 => L2
    case CIP => IP
    case CCosine => Cosine
  }

  /** `allowReplace` (and `replace` in `AddPoints`): 1 for true, 0 for false. */
  function EncodeBool(b: bool): CInt
  {
    if b then 1 else 0
  }

  /** `GetAllowReplaceDeleted`: any positive C value reads as true. */
  function DecodeBool(c: CInt): bool
  {
    c > 0
  }

  /** The arguments of `C.newIndex`, in order. */
  datatype NewIndexCall = NewIndexCall(
    space: CSpaceType, dim: CInt, maxElements: Uint64, m: CInt,
    efConstruction: CInt, randSeed: CInt, allowReplace: CInt)

  /** The arguments of `C.loadIndex`, in order; the location is the path given to `Load`. */
  datatype LoadIndexCall = LoadIndexCall(
    location: string, space: CSpaceType, dim: CInt, maxElements: Uint64, allowReplace: CInt)

  /** What `New` hands to the engine. */
  function NewArgs(dim: GoInt, m: GoInt, efConstruction: GoInt, randSeed: GoInt,
                   maxElements: Uint64, spaceType: GoInt, allowReplaceDeleted: bool): NewIndexCall
  {
    NewIndexCall(EncodeSpace(spaceType), ToCInt(dim), maxElements, ToCInt(m),
                 ToCInt(efConstruction), ToCInt(randSeed), EncodeBool(allowReplaceDeleted))
  }

  /** What `Load` hands to the engine. */
  function LoadArgs(location: string, spaceType: GoInt, dim: GoInt, maxElements: Uint64,
                    allowReplaceDeleted: bool): LoadIndexCall
  {
    LoadIndexCall(location, EncodeSpace(spaceType), ToCInt(dim), maxElements, EncodeBool(allowReplaceDeleted))
  }

  /** The three declared metrics reach the engine as themselves, and every C metric is reached. */
  lemma SpaceRoundTrip(spaceType: GoInt, c: CSpaceType)
    ensures spaceType in {L2, IP, Cosine} ==> SpaceName(EncodeSpace(spaceType)) == spaceType
    ensures EncodeSpace(SpaceName(c)) == c
  {
  }

  /** Any other `SpaceType` value falls back to `l2`. */
  lemma UnknownSpaceIsL2(spaceType: GoInt)
    requires spaceType !in {L2, IP, Cosine}
    ensures EncodeSpace(spaceType) == CL2
  {
  }

  /** The flag reads back as itself, and it is encoded as 1 exactly when it is set. */
  lemma FlagRoundTrip(b: bool)
    ensures DecodeBool(EncodeBool(b)) == b
    ensures EncodeBool(b) == 1 <==> b
    ensures EncodeBool(b) == 0 <==> !b
  {
  }

  /**
    For arguments that fit in a C `int`, `New` passes every number unchanged,
    the metric as its C counterpart, and a flag that reads back as given.
   */
  lemma NewArgsFaithful(dim: GoInt, m: GoInt, efConstruction: GoInt, randSeed: GoInt,
                        maxElements: Uint64, spaceType: GoInt, allowReplaceDeleted: bool)
    requires -TWO_TO_31 <= dim < TWO_TO_31 && -TWO_TO_31 <= m < TWO_TO_31
    requires -TWO_TO_31 <= efConstruction < TWO_TO_31 && -TWO_TO_31 <= randSeed < TWO_TO_31
    requires spaceType in {L2, IP, Cosine}
    ensures var call := NewArgs(dim, m, efConstruction, randSeed, maxElements, spaceType, allowReplaceDeleted);
      && SpaceName(call.space) == spaceType
      && call.dim == dim && call.m == m && call.efConstruction == efConstruction
      && call.randSeed == randSeed && call.maxElements == maxElements
      && DecodeBool(call.allowReplace) == allowReplaceDeleted
  {
  }

  /** `Load` encodes the metric, the dimension and the flag exactly as `New` does. */
  lemma LoadAgreesWithNew(location: string, dim: GoInt, m: GoInt, efConstruction: GoInt, randSeed: GoInt,
                          maxElements: Uint64, spaceType: GoInt, allowReplaceDeleted: bool)
    ensures var n := NewArgs(dim, m, efConstruction, randSeed, maxElements, spaceType, allowReplaceDeleted);
            var l := LoadArgs(location, spaceType, dim, maxElements, allowReplaceDeleted);
      && l.location == location
      && l.space == n.space && l.dim == n.dim && l.maxElements == n.maxElements
      && l.allowReplace == n.allowReplace
  {
  }
}
