/** Nonce-mapping domain values of PACE. The mapping itself is not
    implemented by the source; only its value types and the identity test on
    points are. */
module Mapping {
  import opened Wrappers
  import EllipticCurve

  /** A point with big-integer coordinates that may be nil. */
  datatype Point = Point(x: Option<int>, y: Option<int>)

  /** Domain parameters after mapping: field prime, coefficients, generator,
      order and cofactor. */
  datatype MappedDomain = MappedDomain(p: Option<int>, a: Option<int>, b: Option<int>,
                                       g: Option<Point>, n: Option<int>, h: Option<int>)

  /** Mapping algorithm identifiers, numbered as Go's `iota`. */
  type MappingType = int

  const MappingTypeGM: MappingType := 0
  const MappingTypeIM: MappingType := 1

  datatype MappingResult = MappingResult(mappingType: MappingType, domain: Option<MappedDomain>)

  /** The identity test of this package: both coordinates nil. Unlike the
      crypto package's version it takes a non-nil point. */
  function IsPointAtInfinity(p: Point): (r: bool)
    ensures r <==> p == Point(None, None)
  {
    p.x == None && p.y == None
  }

  /** A half-set point and a fully set point are both finite. */
  lemma PartialPointsAreFinite(x: int, y: int)
    ensures !IsPointAtInfinity(Point(Some(x), None))
    ensures !IsPointAtInfinity(Point(None, Some(y)))
    ensures !IsPointAtInfinity(Point(Some(x), Some(y)))
    ensures IsPointAtInfinity(Point(None, None))
  {
  }

  /** On non-nil points the two packages' identity tests agree. */
  lemma InfinityTestsAgree(x: Option<int>, y: Option<int>)
    ensures IsPointAtInfinity(Point(x, y)) == EllipticCurve.IsPointAtInfinity(Some(EllipticCurve.Point(x, y)))
  {
  }

  lemma MappingTypesDistinct()
    ensures MappingTypeGM != MappingTypeIM
  {
  }
}
