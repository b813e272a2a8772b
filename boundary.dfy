/** The optional rectangle that limits which grid points are written, and
    the builder that assembles it.  Coordinates are in 10^-6 degrees. */
module Boundaries {
  import opened Errors

  /** Each side is optional; an absent side does not limit. */
  datatype Boundary = Boundary(
    northernmost: Option<nat>,
    southernmost: Option<nat>,
    westernmost: Option<nat>,
    easternmost: Option<nat>)

  /** The default boundary: no side set. */
  const UNBOUNDED: Boundary := Boundary(None, None, None, None)

  /** Boundary::contains: the four sides are checked in order north, south,
      west, east, and the first one the point lies beyond rejects it. */
  function Contains(b: Boundary, longitude: int, latitude: int): (r: bool)
    ensures r <==> && (b.northernmost.Some? ==> latitude <= b.northernmost.value)
                   && (b.southernmost.Some? ==> b.southernmost.value <= latitude)
                   && (b.westernmost.Some? ==> b.westernmost.value <= longitude)
                   && (b.easternmost.Some? ==> longitude <= b.easternmost.value)
  {
    if b.northernmost.Some? && b.northernmost.value < latitude then false
    else if b.southernmost.Some? && latitude < b.southernmost.value then false
    else if b.westernmost.Some? && longitude < b.westernmost.value then false
    else if b.easternmost.Some? && b.easternmost.value < longitude then false
    else true
  }

  /** The boundary that keeps only one side of `b`. */
  function OnlyNorth(b: Boundary): Boundary { Boundary(b.northernmost, None, None, None) }
  function OnlySouth(b: Boundary): Boundary { Boundary(None, b.southernmost, None, None) }
  function OnlyWest(b: Boundary): Boundary { Boundary(None, None, b.westernmost, None) }
  function OnlyEast(b: Boundary): Boundary { Boundary(None, None, None, b.easternmost) }

  /** A boundary is the intersection of its four half-planes: the order of
      the early returns does not matter. */
  lemma ContainsIsIntersection(b: Boundary, longitude: nat, latitude: nat)
    ensures Contains(b, longitude, latitude) <==>
              && Contains(OnlyNorth(b), longitude, latitude)
              && Contains(OnlySouth(b), longitude, latitude)
              && Contains(OnlyWest(b), longitude, latitude)
              && Contains(OnlyEast(b), longitude, latitude)
  {
  }

  /** The default boundary keeps every grid point. */
  lemma UnboundedContainsAll(longitude: nat, latitude: nat)
    ensures Contains(UNBOUNDED, longitude, latitude)
  {
  }

  /** The sides are inclusive: a fully set boundary contains its own corners,
      and nothing one unit beyond any side. */
  lemma SidesAreInclusive(north: nat, south: nat, west: nat, east: nat)
    requires south <= north && west <= east
    ensures var b := Boundary(Some(north), Some(south), Some(west), Some(east));
            && Contains(b, west, north) && Contains(b, east, north)
            && Contains(b, west, south) && Contains(b, east, south)
            && !Contains(b, west, north + 1) && !Contains(b, east + 1, south)
            && (0 < south ==> !Contains(b, west, south - 1))
            && (0 < west ==> !Contains(b, west - 1, north))
  {
  }

  /** Narrowing a boundary side never admits a point it excluded. */
  lemma NarrowingNorthShrinks(b: Boundary, north: nat, longitude: nat, latitude: nat)
    requires b.northernmost.Some? && north <= b.northernmost.value
    ensures Contains(b.(northernmost := Some(north)), longitude, latitude) ==> Contains(b, longitude, latitude)
  {
  }

  /** The unit tests of Boundary::contains. */
  lemma ContainsExamples()
    ensures var b := Boundary(Some(36000000), Some(35000000), Some(135000000), Some(136000000));
            && Contains(b, 135000000, 36000000)
            && Contains(b, 136000000, 36000000)
            && Contains(b, 135000000, 35000000)
            && Contains(b, 136000000, 35000000)
            && Contains(b, 135500000, 35500000)
            && !Contains(b, 134900000, 36000000)
            && !Contains(b, 135000000, 36100000)
            && !Contains(b, 136100000, 36000000)
            && !Contains(b, 135000000, 34900000)
  {
  }

  // ---------------------------------------------------------------------
  // BoundaryBuilder: by-value setters, one per side, and build.

  datatype BoundaryBuilder = BoundaryBuilder(
    northernmost: Option<nat>,
    southernmost: Option<nat>,
    westernmost: Option<nat>,
    easternmost: Option<nat>)

  const EMPTY_BUILDER: BoundaryBuilder := BoundaryBuilder(None, None, None, None)

  function SetNorthernmost(builder: BoundaryBuilder, degree: Option<nat>): (r: BoundaryBuilder)
    ensures r.northernmost == degree
    ensures r.southernmost == builder.southernmost && r.westernmost == builder.westernmost
            && r.easternmost == builder.easternmost
  {
    builder.(northernmost := degree)
  }

  function SetSouthernmost(builder: BoundaryBuilder, degree: Option<nat>): (r: BoundaryBuilder)
    ensures r.southernmost == degree
    ensures r.northernmost == builder.northernmost && r.westernmost == builder.westernmost
            && r.easternmost == builder.easternmost
  {
    builder.(southernmost := degree)
  }

  function SetWesternmost(builder: BoundaryBuilder, degree: Option<nat>): (r: BoundaryBuilder)
    ensures r.westernmost == degree
    ensures r.northernmost == builder.northernmost && r.southernmost == builder.southernmost
            && r.easternmost == builder.easternmost
  {
    builder.(westernmost := degree)
  }

  function SetEasternmost(builder: BoundaryBuilder, degree: Option<nat>): (r: BoundaryBuilder)
    ensures r.easternmost == degree
    ensures r.northernmost == builder.northernmost && r.southernmost == builder.southernmost
            && r.westernmost == builder.westernmost
  {
    builder.(easternmost := degree)
  }

  function Build(builder: BoundaryBuilder): (r: Boundary)
    ensures r.northernmost == builder.northernmost && r.southernmost == builder.southernmost
    ensures r.westernmost == builder.westernmost && r.easternmost == builder.easternmost
  {
    Boundary(builder.northernmost, builder.southernmost, builder.westernmost, builder.easternmost)
  }

  /** Setting the four sides, in any order, and building gives the boundary
      with exactly those sides; an untouched builder gives the default one. */
  lemma BuildAfterSetters(north: Option<nat>, south: Option<nat>, west: Option<nat>, east: Option<nat>)
    ensures Build(SetEasternmost(SetWesternmost(SetSouthernmost(SetNorthernmost(EMPTY_BUILDER, north), south), west), east))
            == Boundary(north, south, west, east)
    ensures Build(SetNorthernmost(SetSouthernmost(SetWesternmost(SetEasternmost(EMPTY_BUILDER, east), west), south), north))
            == Boundary(north, south, west, east)
    ensures Build(EMPTY_BUILDER) == UNBOUNDED
  {
  }
}
