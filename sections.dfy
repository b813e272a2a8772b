/** The section validator: sections 0, 1, 3, 4, 5, 6 and 8 of a GRIB Edition 2
    message of the one supported profile (grid template 3.0, data
    representation template 5.200).  Each section is described twice: as a
    function over the whole byte sequence and the section's start offset (the
    layout), and as a method that reads it field by field from a Reader, proved
    to agree with the layout. */
module Sections {
  import opened Errors
  import opened FieldReader

  // Section 0
  const DOCUMENT_DOMAIN: nat := 0
  const GRIB_VERSION: nat := 2
  // Section 1
  const GRIB_MASTER_TABLE_VERSION: nat := 2
  const GRIB_LOCAL_TABLE_VERSION: nat := 1
  const CREATION_STATUS: nat := 0
  const DOCUMENT_KIND: nat := 0
  // Section 3
  const GRID_SYSTEM_DEFINITION: nat := 0
  const GRID_SYSTEM_DEFINITION_TEMPLATE: nat := 0
  const EARTH_FIGURE: nat := 4
  const NUMBER_OF_POINT_AT_VERTICAL: nat := 2560
  const NUMBER_OF_POINT_AT_HORIZONTAL: nat := 3360
  const CREATION_RANGE_ANGLE: nat := 0
  const SCANNING_MODE: nat := 0
  // Section 5
  const DOCUMENT_EXPRESSION_TEMPLATE: nat := 200
  const BITS_PER_DATA: nat := 8
  const DATA_VALUE_FACTOR: nat := 1

  /** "GRIB" and "7777" in ASCII. */
  const GRIB: seq<byte> := [0x47, 0x52, 0x49, 0x42]
  const END_MARKER: seq<byte> := [0x37, 0x37, 0x37, 0x37]

  /** Bytes occupied by section 1 as read, and by section 3 of template 3.0. */
  const SECTION1_LENGTH: nat := 21
  const SECTION3_LENGTH: nat := 72
  /** Octets of section 5 before the level table. */
  const SECTION5_FIXED_LENGTH: nat := 17

  /** Grid geometry of section 3 (values in 10^-6 degrees). */
  datatype Section3 = Section3(
    numberOfPoints: nat,
    northernmost: nat,
    westernmost: nat,
    southernmost: nat,
    easternmost: nat,
    longitudeIncrement: nat,
    latitudeIncrement: nat)

  /** Compression parameters and level table of section 5. */
  datatype Section5 = Section5(
    numberOfPoints: nat,
    bitsPerData: nat,
    maxLevelAtFile: nat,
    maxLevel: nat,
    levelValues: seq<nat>)

  datatype DateTime = DateTime(year: nat, month: nat, day: nat, hour: nat, minute: nat, second: nat)

  /** What a section parse yields, and the offset of whatever follows it. */
  datatype Parsed<+T> = Parsed(value: T, next: nat)

  /** A method's result and final position agree with a layout function. */
  predicate Matches<T(==)>(r: Result<T>, spec: Result<Parsed<T>>, pos: nat)
  {
    match spec
    case Ok(p) => r == Ok(p.value) && pos == p.next
    case Err(e) => r == Err(e)
  }

  function UIntAt(data: seq<byte>, pos: nat, width: nat): Result<nat>
    requires width == 1 || width == 2 || width == 4
  {
    if width == 1 then U8At(data, pos) else if width == 2 then U16At(data, pos) else U32At(data, pos)
  }

  /** A field checker: the `width`-byte field at `pos` must hold `expected`. */
  function ConstantAt(data: seq<byte>, pos: nat, width: nat, field: Field, expected: nat): (r: Result<()>)
    requires width == 1 || width == 2 || width == 4
    ensures r.Ok? <==> UIntAt(data, pos, width) == Ok(expected)
    ensures r.Err? && pos + width <= |data| ==> r.error == UnexpectedConstant(field, expected, UIntAt(data, pos, width).value)
  {
    var actual :- UIntAt(data, pos, width);
    if actual == expected then Ok(()) else Err(UnexpectedConstant(field, expected, actual))
  }

  /** The section-number octet at `pos` must be `number`. */
  function SectionNumberAt(data: seq<byte>, pos: nat, number: nat): (r: Result<()>)
    ensures r.Ok? <==> pos < |data| && data[pos] == number
    ensures r.Err? && pos < |data| ==> r.error == SectionNumberMismatch(number, data[pos])
  {
    var actual :- U8At(data, pos);
    if actual == number then Ok(()) else Err(SectionNumberMismatch(number, actual))
  }

  predicate IsLeapYear(year: nat)
  {
    (year % 4 == 0 && year % 100 != 0) || year % 400 == 0
  }

  function DaysInMonth(year: nat, month: nat): nat
    requires 1 <= month <= 12
  {
    if month == 2 then (if IsLeapYear(year) then 29 else 28)
    else if month == 4 || month == 6 || month == 9 || month == 11 then 30
    else 31
  }

  /** The calendar rules of the date-time library's constructors for a year
      in its default range. */
  predicate ValidDateTime(t: DateTime)
  {
    && t.year <= 9999
    && 1 <= t.month <= 12
    && 1 <= t.day <= DaysInMonth(t.year, t.month)
    && t.hour < 24 && t.minute < 60 && t.second < 60
  }

  /** The reference time of section 1: a two-byte year and five one-byte parts. */
  function ReferencedAt(data: seq<byte>, pos: nat): (r: Result<DateTime>)
    ensures |data| < pos + 7 ==> r == Err(Truncated)
    ensures pos + 7 <= |data| ==>
              var t := DateTime(U16At(data, pos).value, data[pos + 2], data[pos + 3],
                                data[pos + 4], data[pos + 5], data[pos + 6]);
              r == if ValidDateTime(t) then Ok(t) else Err(InvalidDateTime)
  {
    var year :- U16At(data, pos);
    var parts :- BytesAt(data, pos + 2, 5);
    var t := DateTime(year, parts[0], parts[1], parts[2], parts[3], parts[4]);
    if ValidDateTime(t) then Ok(t) else Err(InvalidDateTime)
  }

  /** Section 0: "GRIB", two reserved octets, domain, edition, eight octets of total length. */
  function Section0At(data: seq<byte>, pos: nat): (r: Result<Parsed<()>>)
    ensures r.Ok? <==> pos + 8 <= |data| && data[pos..pos + 4] == GRIB
                       && data[pos + 6] == DOCUMENT_DOMAIN && data[pos + 7] == GRIB_VERSION
    ensures r.Ok? ==> r.value.next == pos + 16
  {
    if |data| < pos + 4 || data[pos..pos + 4] != GRIB then Err(NotGrib)
    else
      var _ :- ConstantAt(data, pos + 6, 1, DocumentDomain, DOCUMENT_DOMAIN);
      var _ :- ConstantAt(data, pos + 7, 1, GribVersion, GRIB_VERSION);
      Ok(Parsed((), pos + 16))
  }

  /** Section 1, identification: 21 octets as read. */
  function Section1At(data: seq<byte>, pos: nat): (r: Result<Parsed<()>>)
    ensures r.Ok? <==> pos + SECTION1_LENGTH <= |data| && data[pos + 4] == 1
                       && data[pos + 9] == GRIB_MASTER_TABLE_VERSION
                       && data[pos + 10] == GRIB_LOCAL_TABLE_VERSION
                       && ReferencedAt(data, pos + 12).Ok?
                       && data[pos + 19] == CREATION_STATUS && data[pos + 20] == DOCUMENT_KIND
    ensures r.Ok? ==> r.value.next == pos + SECTION1_LENGTH
  {
    var _ :- SectionNumberAt(data, pos + 4, 1);
    var _ :- ConstantAt(data, pos + 9, 1, MasterTableVersion, GRIB_MASTER_TABLE_VERSION);
    var _ :- ConstantAt(data, pos + 10, 1, LocalTableVersion, GRIB_LOCAL_TABLE_VERSION);
    var _ :- ReferencedAt(data, pos + 12);
    var _ :- ConstantAt(data, pos + 19, 1, CreationStatus, CREATION_STATUS);
    var _ :- ConstantAt(data, pos + 20, 1, DocumentKind, DOCUMENT_KIND);
    Ok(Parsed((), pos + SECTION1_LENGTH))
  }

  /** Section 3, grid definition by template 3.0: 72 octets. */
  function Section3At(data: seq<byte>, pos: nat): (r: Result<Parsed<Section3>>)
    ensures r.Ok? <==> pos + SECTION3_LENGTH <= |data| && data[pos + 4] == 3
                       && data[pos + 5] == GRID_SYSTEM_DEFINITION
                       && U16At(data, pos + 12) == Ok(GRID_SYSTEM_DEFINITION_TEMPLATE)
                       && data[pos + 14] == EARTH_FIGURE
                       && U32At(data, pos + 30) == Ok(NUMBER_OF_POINT_AT_VERTICAL)
                       && U32At(data, pos + 34) == Ok(NUMBER_OF_POINT_AT_HORIZONTAL)
                       && U32At(data, pos + 38) == Ok(CREATION_RANGE_ANGLE)
                       && data[pos + 71] == SCANNING_MODE
    ensures r.Ok? ==> r.value.next == pos + SECTION3_LENGTH
    ensures r.Ok? ==> r.value.value == Section3(
                        U32At(data, pos + 6).value,
                        U32At(data, pos + 46).value, U32At(data, pos + 50).value,
                        U32At(data, pos + 55).value, U32At(data, pos + 59).value,
                        U32At(data, pos + 63).value, U32At(data, pos + 67).value)
  {
    var points :- Section3GridAt(data, pos);
    var _ :- Section3ShapeAt(data, points.next);
    Section3ExtentAt(data, pos + 42, points.value)
  }

  /** Octets 5 to 15 of section 3: section number, source of grid definition,
      number of data points, template number and shape of the earth. */
  function Section3GridAt(data: seq<byte>, pos: nat): (r: Result<Parsed<nat>>)
    ensures r.Ok? <==> pos + 15 <= |data| && data[pos + 4] == 3
                       && data[pos + 5] == GRID_SYSTEM_DEFINITION
                       && U16At(data, pos + 12) == Ok(GRID_SYSTEM_DEFINITION_TEMPLATE)
                       && data[pos + 14] == EARTH_FIGURE
    ensures r.Ok? ==> r.value == Parsed(U32At(data, pos + 6).value, pos + 15)
  {
    var _ :- SectionNumberAt(data, pos + 4, 3);
    var _ :- ConstantAt(data, pos + 5, 1, GridSystemDefinition, GRID_SYSTEM_DEFINITION);
    var points :- U32At(data, pos + 6);
    var _ :- ConstantAt(data, pos + 12, 2, GridSystemDefinitionTemplate, GRID_SYSTEM_DEFINITION_TEMPLATE);
    var _ :- ConstantAt(data, pos + 14, 1, EarthFigure, EARTH_FIGURE);
    Ok(Parsed(points, pos + 15))
  }

  /** Octets 31 to 42 of section 3 (the fifteen octets before them are skipped):
      points along a parallel and along a meridian, and the creation-range
      angle.  `pos` is where octet 16 starts. */
  function Section3ShapeAt(data: seq<byte>, pos: nat): (r: Result<Parsed<()>>)
    ensures r.Ok? <==> pos + 27 <= |data|
                       && U32At(data, pos + 15) == Ok(NUMBER_OF_POINT_AT_VERTICAL)
                       && U32At(data, pos + 19) == Ok(NUMBER_OF_POINT_AT_HORIZONTAL)
                       && U32At(data, pos + 23) == Ok(CREATION_RANGE_ANGLE)
    ensures r.Ok? ==> r.value.next == pos + 27
  {
    var _ :- ConstantAt(data, pos + 15, 4, PointsAlongParallel, NUMBER_OF_POINT_AT_VERTICAL);
    var _ :- ConstantAt(data, pos + 19, 4, PointsAlongMeridian, NUMBER_OF_POINT_AT_HORIZONTAL);
    var _ :- ConstantAt(data, pos + 23, 4, CreationRangeAngle, CREATION_RANGE_ANGLE);
    Ok(Parsed((), pos + 27))
  }

  /** Octets 47 to 63 of section 3: latitude and longitude of the first and
      last grid points.  `pos` is where octet 43 starts. */
  function Section3CornersAt(data: seq<byte>, pos: nat): (r: Result<Parsed<(nat, nat, nat, nat)>>)
    ensures r.Ok? <==> pos + 21 <= |data|
    ensures r.Ok? ==> r.value == Parsed((U32At(data, pos + 4).value, U32At(data, pos + 8).value,
                                         U32At(data, pos + 13).value, U32At(data, pos + 17).value), pos + 21)
  {
    var north :- U32At(data, pos + 4);
    var west :- U32At(data, pos + 8);
    var south :- U32At(data, pos + 13);
    var east :- U32At(data, pos + 17);
    Ok(Parsed((north, west, south, east), pos + 21))
  }

  /** Octets 64 to 72 of section 3: the two increments and the scanning mode.
      `pos` is where octet 64 starts. */
  function Section3IncrementsAt(data: seq<byte>, pos: nat): (r: Result<Parsed<(nat, nat)>>)
    ensures r.Ok? <==> pos + 9 <= |data| && data[pos + 8] == SCANNING_MODE
    ensures r.Ok? ==> r.value == Parsed((U32At(data, pos).value, U32At(data, pos + 4).value), pos + 9)
  {
    var lonInc :- U32At(data, pos);
    var latInc :- U32At(data, pos + 4);
    var _ :- ConstantAt(data, pos + 8, 1, ScanningMode, SCANNING_MODE);
    Ok(Parsed((lonInc, latInc), pos + 9))
  }

  /** Octets 47 to 72 of section 3.  `pos` is where octet 43 starts. */
  function Section3ExtentAt(data: seq<byte>, pos: nat, points: nat): (r: Result<Parsed<Section3>>)
    ensures r.Ok? <==> pos + 30 <= |data| && data[pos + 29] == SCANNING_MODE
    ensures r.Ok? ==> r.value == Parsed(Section3(points,
                        U32At(data, pos + 4).value, U32At(data, pos + 8).value,
                        U32At(data, pos + 13).value, U32At(data, pos + 17).value,
                        U32At(data, pos + 21).value, U32At(data, pos + 25).value), pos + 30)
  {
    var corners :- Section3CornersAt(data, pos);
    var increments :- Section3IncrementsAt(data, corners.next);
    var (north, west, south, east) := corners.value;
    var (lonInc, latInc) := increments.value;
    Ok(Parsed(Section3(points, north, west, south, east, lonInc, latInc), increments.next))
  }

  /** Section 4, product definition: skipped by its declared length. */
  function Section4At(data: seq<byte>, pos: nat): (r: Result<Parsed<()>>)
    ensures r.Ok? <==> pos + 5 <= |data| && data[pos + 4] == 4 && 5 <= U32At(data, pos).value
    ensures r.Ok? ==> r.value.next == pos + U32At(data, pos).value
    ensures pos + 5 <= |data| && data[pos + 4] == 4 && U32At(data, pos).value < 5 ==>
              r == Err(Panicked(SubtractionUnderflow))
  {
    var length :- U32At(data, pos);
    var _ :- SectionNumberAt(data, pos + 4, 4);
    if length < 5 then Err(Panicked(SubtractionUnderflow))
    else Ok(Parsed((), pos + 5 + (length - 5)))
  }

  /** The number of level-table entries the decoder reads from a section 5 of
      `length` octets: the remaining octets truncated to 16 bits, halved. */
  function LevelCount(length: nat): nat
    requires SECTION5_FIXED_LENGTH <= length
  {
    ((length - SECTION5_FIXED_LENGTH) % 0x1_0000) / 2
  }

  /** `count` big-endian 16-bit level values starting at `pos`. */
  function LevelTableAt(data: seq<byte>, pos: nat, count: nat): (r: Result<Parsed<seq<nat>>>)
    ensures r.Ok? <==> count == 0 || pos + 2 * count <= |data|
    ensures r.Err? ==> r.error == Truncated
    ensures r.Ok? ==> r.value.next == pos + 2 * count && |r.value.value| == count
    ensures r.Ok? ==> forall i :: 0 <= i < count ==>
                        r.value.value[i] == data[pos + 2 * i] as int * 256 + data[pos + 2 * i + 1]
  {
    if count == 0 || pos + 2 * count <= |data| then
      Ok(Parsed(seq(count, i requires 0 <= i < count => U16At(data, pos + 2 * i).value), pos + 2 * count))
    else
      Err(Truncated)
  }

  /** Section 5, data representation by template 5.200, with its level table. */
  function Section5At(data: seq<byte>, pos: nat): (r: Result<Parsed<Section5>>)
    ensures r.Ok? <==> && pos + SECTION5_FIXED_LENGTH <= |data| && data[pos + 4] == 5
                       && U16At(data, pos + 9) == Ok(DOCUMENT_EXPRESSION_TEMPLATE)
                       && data[pos + 11] == BITS_PER_DATA && data[pos + 16] == DATA_VALUE_FACTOR
                       && SECTION5_FIXED_LENGTH <= U32At(data, pos).value
                       && var count := LevelCount(U32At(data, pos).value);
                          count == 0 || pos + SECTION5_FIXED_LENGTH + 2 * count <= |data|
    ensures r.Ok? ==> pos + SECTION5_FIXED_LENGTH <= |data| && data[pos + 4] == 5
                      && U16At(data, pos + 9) == Ok(DOCUMENT_EXPRESSION_TEMPLATE)
                      && data[pos + 11] == BITS_PER_DATA && data[pos + 16] == DATA_VALUE_FACTOR
                      && SECTION5_FIXED_LENGTH <= U32At(data, pos).value
    ensures r.Ok? ==> var s := r.value.value;
                      && s.numberOfPoints == U32At(data, pos + 5).value
                      && s.bitsPerData == BITS_PER_DATA
                      && s.maxLevelAtFile == U16At(data, pos + 12).value
                      && s.maxLevel == U16At(data, pos + 14).value
                      && |s.levelValues| == LevelCount(U32At(data, pos).value)
                      && r.value.next == pos + SECTION5_FIXED_LENGTH + 2 * |s.levelValues| <= |data|
                      && forall i :: 0 <= i < |s.levelValues| ==>
                           s.levelValues[i] == data[pos + SECTION5_FIXED_LENGTH + 2 * i] as int * 256
                                               + data[pos + SECTION5_FIXED_LENGTH + 2 * i + 1]
  {
    var length :- U32At(data, pos);
    var _ :- SectionNumberAt(data, pos + 4, 5);
    var points :- U32At(data, pos + 5);
    var _ :- ConstantAt(data, pos + 9, 2, RepresentationTemplate, DOCUMENT_EXPRESSION_TEMPLATE);
    var _ :- ConstantAt(data, pos + 11, 1, BitsPerData, BITS_PER_DATA);
    var maxv :- U16At(data, pos + 12);
    var maxLevel :- U16At(data, pos + 14);
    var _ :- ConstantAt(data, pos + 16, 1, DataValueFactor, DATA_VALUE_FACTOR);
    if length < SECTION5_FIXED_LENGTH then Err(Panicked(SubtractionUnderflow))
    else
      var levels :- LevelTableAt(data, pos + SECTION5_FIXED_LENGTH, LevelCount(length));
      Ok(Parsed(Section5(points, BITS_PER_DATA, maxv, maxLevel, levels.value), levels.next))
  }

  /** Section 6, bit-map: section number and the one indicator octet. */
  function Section6At(data: seq<byte>, pos: nat): (r: Result<Parsed<()>>)
    ensures r.Ok? <==> pos + 5 <= |data| && data[pos + 4] == 6
    ensures r.Ok? ==> r.value.next == pos + 6
  {
    var _ :- SectionNumberAt(data, pos + 4, 6);
    Ok(Parsed((), pos + 6))
  }

  /** Section 8: the literal "7777". */
  function Section8At(data: seq<byte>, pos: nat): (r: Result<Parsed<()>>)
    ensures r.Ok? <==> pos + 4 <= |data| && data[pos..pos + 4] == END_MARKER
    ensures r.Ok? ==> r.value.next == pos + 4
    ensures r.Err? ==> r.error == MissingEndMarker
  {
    if |data| < pos + 4 || data[pos..pos + 4] != END_MARKER then Err(MissingEndMarker)
    else Ok(Parsed((), pos + 4))
  }

  /** The metadata an opened file keeps: grid geometry and compression parameters. */
  datatype Header = Header(section3: Section3, section5: Section5)

  /** The header parse of Grib2Csv::new: sections 0 to 6 in order (section 2
      absent), with the point counts of sections 3 and 5 compared before
      section 6 is read.  `next` is where section 7 starts. */
  function OpenSpec(data: seq<byte>): (r: Result<Parsed<Header>>)
    ensures r.Ok? ==> r.value.value.section3.numberOfPoints == r.value.value.section5.numberOfPoints
  {
    var s0 :- Section0At(data, 0);
    var s1 :- Section1At(data, s0.next);
    var s3 :- Section3At(data, s1.next);
    var s4 :- Section4At(data, s3.next);
    var s5 :- Section5At(data, s4.next);
    if s3.value.numberOfPoints != s5.value.numberOfPoints then
      Err(PointCountMismatch(s3.value.numberOfPoints, s5.value.numberOfPoints))
    else
      var s6 :- Section6At(data, s5.next);
      Ok(Parsed(Header(s3.value, s5.value), s6.next))
  }

  /** Every check Grib2Csv::new makes, at the offsets where the sections of
      an accepted file lie: section 0 at 0, section 1 at 16, section 3 at 37,
      section 4 at 109, section 5 after section 4's declared length, and
      section 6 after the level table. */
  predicate HeaderChecks(data: seq<byte>)
  {
    && Section0Checks(data) && Section1Checks(data) && Section3Checks(data) && Section4Checks(data)
    && Section5Checks(data, 109 + U32At(data, 109).value, U32At(data, 43).value)
  }

  predicate Section0Checks(data: seq<byte>)
  {
    8 <= |data| && data[..4] == GRIB && data[6] == DOCUMENT_DOMAIN && data[7] == GRIB_VERSION
  }

  predicate Section1Checks(data: seq<byte>)
  {
    && 37 <= |data| && data[20] == 1
    && data[25] == GRIB_MASTER_TABLE_VERSION && data[26] == GRIB_LOCAL_TABLE_VERSION
    && ReferencedAt(data, 28).Ok? && data[35] == CREATION_STATUS && data[36] == DOCUMENT_KIND
  }

  predicate Section3Checks(data: seq<byte>)
  {
    && 109 <= |data| && data[41] == 3 && data[42] == GRID_SYSTEM_DEFINITION
    && U16At(data, 49) == Ok(GRID_SYSTEM_DEFINITION_TEMPLATE) && data[51] == EARTH_FIGURE
    && U32At(data, 67) == Ok(NUMBER_OF_POINT_AT_VERTICAL)
    && U32At(data, 71) == Ok(NUMBER_OF_POINT_AT_HORIZONTAL)
    && U32At(data, 75) == Ok(CREATION_RANGE_ANGLE) && data[108] == SCANNING_MODE
  }

  predicate Section4Checks(data: seq<byte>)
  {
    114 <= |data| && data[113] == 4 && 5 <= U32At(data, 109).value
  }

  /** The checks from section 5 on, for section 5 at `pos` and a grid of `points` points. */
  predicate Section5Checks(data: seq<byte>, pos: nat, points: nat)
  {
    && pos + SECTION5_FIXED_LENGTH <= |data| && data[pos + 4] == 5
    && U16At(data, pos + 9) == Ok(DOCUMENT_EXPRESSION_TEMPLATE)
    && data[pos + 11] == BITS_PER_DATA && data[pos + 16] == DATA_VALUE_FACTOR
    && SECTION5_FIXED_LENGTH <= U32At(data, pos).value
    && var count := LevelCount(U32At(data, pos).value);
       && (count == 0 || pos + SECTION5_FIXED_LENGTH + 2 * count <= |data|)
       && U32At(data, pos + 5).value == points
       && var section6 := pos + SECTION5_FIXED_LENGTH + 2 * count;
          section6 + 5 <= |data| && data[section6 + 4] == 6
  }

  /** From section 5 on, the header is accepted exactly when these checks pass. */
  lemma Section5Accepts(data: seq<byte>, pos: nat, points: nat)
    ensures (var s5 := Section5At(data, pos);
             && s5.Ok? && s5.value.value.numberOfPoints == points
             && Section6At(data, s5.value.next).Ok?) <==> Section5Checks(data, pos, points)
  {
  }

  /** Grib2Csv::new accepts a file exactly when every check passes. */
  lemma OpenSpecIsHeaderChecks(data: seq<byte>)
    ensures OpenSpec(data).Ok? <==> HeaderChecks(data)
  {
    assert Section0At(data, 0).Ok? <==> Section0Checks(data);
    assert Section1At(data, 16).Ok? <==> Section1Checks(data);
    assert Section3At(data, 37).Ok? <==> Section3Checks(data);
    assert Section4At(data, 109).Ok? <==> Section4Checks(data);
    if Section0Checks(data) && Section1Checks(data) && Section3Checks(data) && Section4Checks(data) {
      Section5Accepts(data, 109 + U32At(data, 109).value, U32At(data, 43).value);
    }
  }

  /** What an accepted header holds: the grid geometry at its fixed offsets in
      section 3, and section 7 right after the one-octet bit-map indicator. */
  lemma OpenSpecHeader(data: seq<byte>)
    requires OpenSpec(data).Ok?
    ensures var h := OpenSpec(data).value;
            var p5 := 109 + U32At(data, 109).value;
            && h.value.section3 == Section3(
                 U32At(data, 43).value,
                 U32At(data, 83).value, U32At(data, 87).value,
                 U32At(data, 92).value, U32At(data, 96).value,
                 U32At(data, 100).value, U32At(data, 104).value)
            && h.value.section5.bitsPerData == BITS_PER_DATA
            && h.value.section5.maxLevelAtFile == U16At(data, p5 + 12).value
            && h.next == p5 + SECTION5_FIXED_LENGTH + 2 * LevelCount(U32At(data, p5).value) + 6
  {
  }

  // ---------------------------------------------------------------------
  // The same sections read field by field from a Reader.

  /** The field checkers (read_section*_grib_version and the others). */
  method ReadConstant(reader: Reader, width: nat, field: Field, expected: nat) returns (r: Result<()>)
    requires width == 1 || width == 2 || width == 4
    modifies reader
    ensures r == ConstantAt(reader.data, old(reader.pos), width, field, expected)
    ensures r.Ok? ==> reader.pos == old(reader.pos) + width
  {
    var actual: Result<nat>;
    if width == 1 {
      actual := ReadU8(reader);
    } else if width == 2 {
      actual := ReadU16(reader);
    } else {
      actual := ReadU32(reader);
    }
    var v :- actual;
    if v != expected {
      return Err(UnexpectedConstant(field, expected, v));
    }
    r := Ok(());
  }

  method ReadSectionNumber(reader: Reader, number: nat) returns (r: Result<()>)
    modifies reader
    ensures r == SectionNumberAt(reader.data, old(reader.pos), number)
    ensures r.Ok? ==> reader.pos == old(reader.pos) + 1
  {
    var actual :- ReadU8(reader);
    if actual != number {
      return Err(SectionNumberMismatch(number, actual));
    }
    r := Ok(());
  }

  method ReadSection0(reader: Reader) returns (r: Result<()>)
    modifies reader
    ensures Matches(r, Section0At(reader.data, old(reader.pos)), reader.pos)
  {
    var magic := reader.Read(4);
    if |magic| != 4 || magic != GRIB {
      return Err(NotGrib);
    }
    reader.SeekRelative(2);
    var _ :- ReadConstant(reader, 1, DocumentDomain, DOCUMENT_DOMAIN);
    var _ :- ReadConstant(reader, 1, GribVersion, GRIB_VERSION);
    reader.SeekRelative(8);
    r := Ok(());
  }

  /** read_section1_referenced_at: the year, then a loop over the five remaining parts. */
  method ReadReferencedAt(reader: Reader) returns (r: Result<DateTime>)
    modifies reader
    ensures r == ReferencedAt(reader.data, old(reader.pos))
    ensures r.Ok? ==> reader.pos == old(reader.pos) + 7
  {
    ghost var start := reader.pos;
    var year :- ReadU16(reader);
    var parts: seq<nat> := [];
    var i := 0;
    while i < 5
      invariant 0 <= i <= 5 && |parts| == i
      invariant reader.pos == start + 2 + i <= |reader.data|
      invariant forall k :: 0 <= k < i ==> parts[k] == reader.data[start + 2 + k]
    {
      var part :- ReadU8(reader);
      parts := parts + [part];
      i := i + 1;
    }
    var t := DateTime(year, parts[0], parts[1], parts[2], parts[3], parts[4]);
    if !ValidDateTime(t) {
      return Err(InvalidDateTime);
    }
    r := Ok(t);
  }

  method ReadSection1(reader: Reader) returns (r: Result<()>)
    modifies reader
    ensures Matches(r, Section1At(reader.data, old(reader.pos)), reader.pos)
  {
    reader.SeekRelative(4);
    var _ :- ReadSectionNumber(reader, 1);
    reader.SeekRelative(4);
    var _ :- ReadConstant(reader, 1, MasterTableVersion, GRIB_MASTER_TABLE_VERSION);
    var _ :- ReadConstant(reader, 1, LocalTableVersion, GRIB_LOCAL_TABLE_VERSION);
    reader.SeekRelative(1);
    var _ :- ReadReferencedAt(reader);
    var _ :- ReadConstant(reader, 1, CreationStatus, CREATION_STATUS);
    var _ :- ReadConstant(reader, 1, DocumentKind, DOCUMENT_KIND);
    r := Ok(());
  }

  method ReadSection3(reader: Reader) returns (r: Result<Section3>)
    modifies reader
    ensures Matches(r, Section3At(reader.data, old(reader.pos)), reader.pos)
  {
    var points :- ReadSection3Grid(reader);
    var _ :- ReadSection3Shape(reader);
    r := ReadSection3Extent(reader, points);
  }

  method ReadSection3Grid(reader: Reader) returns (r: Result<nat>)
    modifies reader
    ensures Matches(r, Section3GridAt(reader.data, old(reader.pos)), reader.pos)
  {
    reader.SeekRelative(4);
    var _ :- ReadSectionNumber(reader, 3);
    var _ :- ReadConstant(reader, 1, GridSystemDefinition, GRID_SYSTEM_DEFINITION);
    var points :- ReadU32(reader);
    reader.SeekRelative(2);
    var _ :- ReadConstant(reader, 2, GridSystemDefinitionTemplate, GRID_SYSTEM_DEFINITION_TEMPLATE);
    var _ :- ReadConstant(reader, 1, EarthFigure, EARTH_FIGURE);
    r := Ok(points);
  }

  method ReadSection3Shape(reader: Reader) returns (r: Result<()>)
    modifies reader
    ensures Matches(r, Section3ShapeAt(reader.data, old(reader.pos)), reader.pos)
  {
    reader.SeekRelative(15);
    var _ :- ReadConstant(reader, 4, PointsAlongParallel, NUMBER_OF_POINT_AT_VERTICAL);
    var _ :- ReadConstant(reader, 4, PointsAlongMeridian, NUMBER_OF_POINT_AT_HORIZONTAL);
    var _ :- ReadConstant(reader, 4, CreationRangeAngle, CREATION_RANGE_ANGLE);
    r := Ok(());
  }

  method ReadSection3Extent(reader: Reader, points: nat) returns (r: Result<Section3>)
    modifies reader
    ensures Matches(r, Section3ExtentAt(reader.data, old(reader.pos), points), reader.pos)
  {
    var corners :- ReadSection3Corners(reader);
    var increments :- ReadSection3Increments(reader);
    var (north, west, south, east) := corners;
    var (lonInc, latInc) := increments;
    r := Ok(Section3(points, north, west, south, east, lonInc, latInc));
  }

  method ReadSection3Corners(reader: Reader) returns (r: Result<(nat, nat, nat, nat)>)
    modifies reader
    ensures Matches(r, Section3CornersAt(reader.data, old(reader.pos)), reader.pos)
  {
    reader.SeekRelative(4);
    var north :- ReadU32(reader);
    var west :- ReadU32(reader);
    reader.SeekRelative(1);
    var south :- ReadU32(reader);
    var east :- ReadU32(reader);
    r := Ok((north, west, south, east));
  }

  method ReadSection3Increments(reader: Reader) returns (r: Result<(nat, nat)>)
    modifies reader
    ensures Matches(r, Section3IncrementsAt(reader.data, old(reader.pos)), reader.pos)
  {
    var lonInc :- ReadU32(reader);
    var latInc :- ReadU32(reader);
    var _ :- ReadConstant(reader, 1, ScanningMode, SCANNING_MODE);
    r := Ok((lonInc, latInc));
  }

  method ReadSection4(reader: Reader) returns (r: Result<()>)
    modifies reader
    ensures Matches(r, Section4At(reader.data, old(reader.pos)), reader.pos)
  {
    var length :- ReadU32(reader);
    var _ :- ReadSectionNumber(reader, 4);
    if length < 5 {
      return Err(Panicked(SubtractionUnderflow));
    }
    reader.SeekRelative(length - 5);
    r := Ok(());
  }

  /** The level table: a loop pushing `count` big-endian 16-bit values. */
  method ReadLevelValues(reader: Reader, count: nat) returns (r: Result<seq<nat>>)
    modifies reader
    ensures Matches(r, LevelTableAt(reader.data, old(reader.pos), count), reader.pos)
  {
    ghost var start := reader.pos;
    var levels: seq<nat> := [];
    var i := 0;
    while i < count
      invariant 0 <= i <= count && |levels| == i
      invariant reader.pos == start + 2 * i
      invariant 0 < i ==> reader.pos <= |reader.data|
      invariant forall k :: 0 <= k < i ==>
                  levels[k] == reader.data[start + 2 * k] as int * 256 + reader.data[start + 2 * k + 1]
    {
      var level :- ReadU16(reader);
      levels := levels + [level];
      i := i + 1;
    }
    assert levels == LevelTableAt(reader.data, start, count).value.value;
    r := Ok(levels);
  }

  method ReadSection5(reader: Reader) returns (r: Result<Section5>)
    modifies reader
    ensures Matches(r, Section5At(reader.data, old(reader.pos)), reader.pos)
  {
    var length :- ReadU32(reader);
    var _ :- ReadSectionNumber(reader, 5);
    var points :- ReadU32(reader);
    var _ :- ReadConstant(reader, 2, RepresentationTemplate, DOCUMENT_EXPRESSION_TEMPLATE);
    var _ :- ReadConstant(reader, 1, BitsPerData, BITS_PER_DATA);
    var maxv :- ReadU16(reader);
    var maxLevel :- ReadU16(reader);
    var _ :- ReadConstant(reader, 1, DataValueFactor, DATA_VALUE_FACTOR);
    if length < SECTION5_FIXED_LENGTH {
      return Err(Panicked(SubtractionUnderflow));
    }
    var levels :- ReadLevelValues(reader, LevelCount(length));
    r := Ok(Section5(points, BITS_PER_DATA, maxv, maxLevel, levels));
  }

  method ReadSection6(reader: Reader) returns (r: Result<()>)
    modifies reader
    ensures Matches(r, Section6At(reader.data, old(reader.pos)), reader.pos)
  {
    reader.SeekRelative(4);
    var _ :- ReadSectionNumber(reader, 6);
    reader.SeekRelative(1);
    r := Ok(());
  }

  method ReadSection8(reader: Reader) returns (r: Result<()>)
    modifies reader
    ensures Matches(r, Section8At(reader.data, old(reader.pos)), reader.pos)
  {
    var marker := reader.Read(4);
    if |marker| != 4 || marker != END_MARKER {
      return Err(MissingEndMarker);
    }
    r := Ok(());
  }
}
