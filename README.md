# grib2csv core in Dafny

grib2csv converts one fixed kind of GRIB Edition 2 message to rows of
longitude, latitude and value. The message uses grid template 3.0 (a
regular latitude/longitude grid) and the Japan Meteorological Agency's
run-length templates 5.200 and 7.200. This project models the core of
`src/lib.rs`:

- the big-endian field readers `read_u8`, `read_u16` and `read_u32`;
- the section readers and field checkers for sections 0, 1, 3, 4, 5, 6
  and 8, and `Grib2Csv::new`, which chains them and compares the point
  counts of sections 3 and 5;
- the decode loop of `Grib2Csv::convert`. It cuts section 7's codes into
  sets, expands each set with `expand_run_length`, and keeps
  `number_of_read` as a running total;
- the grid walk: `output_values` steps cell by cell and wraps at the
  eastern edge, and `move_lattice_for_missing_values` skips runs of
  missing values;
- `Boundary::contains` and `BoundaryBuilder`.

Modules, one file each:

| module | file | contents |
|---|---|---|
| `Errors` | `errors.dfy` | `Result` and the error kinds |
| `FieldReader` | `field_reader.dfy` | the `Reader` class (the file's bytes plus a read position) and the readers |
| `Sections` | `sections.dfy` | one layout function per section, over the bytes and a start offset, plus the reader methods proved equal to them |
| `RunLength` | `run_length.dfy` | `ExpandRunLength` and its reference meaning (`Split`, `Levels`, `Decode`) |
| `Boundaries` | `boundary.dfy` | `Contains` and the builder |
| `Lattice` | `lattice.dfy` | the cursor step, the corrected skip, and the skip as the source writes it |
| `Walker` | `walker.dfy` | `Raster`, the reference meaning of the rows written |
| `Converter` | `converter.dfy` | the `Grib2Csv` class and `ConvertSpec`, a fold that mirrors the decode loop |

How it fits together:

- The rows are modelled as a sequence of integer triples `Row(longitude, latitude, value)`, in 10^-6 degrees, rather than as CSV text.
- The central results are these:
  - `Converter.ConvertIsDecodeThenRaster`: the decode loop's result equals decoding the codes to one level per grid point, then writing the raster of those levels.
  - `Lattice.SkipOnLatticeIsSteps`: the corrected closed-form skip equals stepping cell by cell.
  - `Lattice.AsWrittenAgreesUnlessUnderflow`: the source's own skip formula is correct exactly when its unsigned subtraction does not underflow.

## Model

| member | source | states |
|---|---|---|
| FieldReader.U8At | src/lib.rs:353-361 | Succeeds exactly when a byte remains at the position; the value is that byte; otherwise `Truncated` |
| FieldReader.U16At | src/lib.rs:364-372 | Succeeds exactly when two bytes remain; the value is their big-endian value, below 2^16; otherwise `Truncated` |
| FieldReader.U32At | src/lib.rs:375-383 | Succeeds exactly when four bytes remain; the value is their big-endian value, below 2^32; otherwise `Truncated` |
| FieldReader.BigEndianBound | src/lib.rs:375-383 | The big-endian value of n bytes is below 256^n |
| FieldReader.BigEndianOfToBigEndian | src/lib.rs:375-383 | Encoding a value that fits in n bytes with `to_be_bytes` and decoding it with `from_be_bytes` gives the value back |
| FieldReader.ToBigEndianOfBigEndian | src/lib.rs:375-383 | Decoding bytes and re-encoding at the same width gives the bytes back |
| FieldReader.Reader.Read | src/lib.rs:354-356 | A read of n bytes returns the next n bytes, or all that remain at the end of the data; the position advances by the number returned |
| FieldReader.Reader.SeekRelative | src/lib.rs:389-401 | A forward seek advances the position by the offset and never fails |
| FieldReader.ReadU8 | src/lib.rs:353-361 | Returns `U8At` at the old position and advances one byte on success |
| FieldReader.ReadU16 | src/lib.rs:364-372 | Returns `U16At` at the old position and advances two bytes on success |
| FieldReader.ReadU32 | src/lib.rs:375-383 | Returns `U32At` at the old position and advances four bytes on success |
| Sections.ConstantAt | src/lib.rs:419-434 | A field checker accepts exactly when the field holds the expected constant; a present but wrong field reports the field, the expected value and the actual value |
| Sections.SectionNumberAt | src/lib.rs:731-739 | The section-number octet must be the section's number; a mismatch reports the expected and actual numbers |
| Sections.ReferencedAt | src/lib.rs:494-510 | The reference time is a two-octet year and five one-octet parts; it fails with `InvalidDateTime` exactly when they are not a calendar date and time |
| Sections.Section0At | src/lib.rs:389-434 | Section 0 is accepted exactly when it starts with "GRIB" and has domain 0 and edition 2; section 1 starts 16 octets later |
| Sections.Section1At | src/lib.rs:441-528 | Section 1 is accepted exactly when it has section number 1, master table 2, local table 1, a valid reference time, status 0 and kind 0; it is 21 octets long |
| Sections.Section3GridAt | src/lib.rs:553-651 | Octets 5 to 15 of section 3: number 3, grid definition source 0, template 0 and earth shape 4 are required; the point count is returned |
| Sections.Section3ShapeAt | src/lib.rs:654-686 | The grid must have 2560 and 3360 points along its axes and basic angle 0 |
| Sections.Section3CornersAt | src/lib.rs:689-706 | The four corners are the u32 values at their offsets |
| Sections.Section3IncrementsAt | src/lib.rs:709-725 | The two increments are read, and the scanning mode must be 0 |
| Sections.Section3ExtentAt | src/lib.rs:591-613 | Octets 47 to 72 give the corners and increments of the returned `Section3` |
| Sections.Section3At | src/lib.rs:531-614 | Section 3 is accepted exactly when all of its constants match; it is 72 octets, and `Section3` holds the point count, corners and increments from their offsets |
| Sections.Section4At | src/lib.rs:731-745 | Section 4 with number 4 is skipped by exactly its declared length; a length below 5 is an underflow panic |
| Sections.LevelTableAt | src/lib.rs:789-794 | The level table is exactly `count` big-endian u16 values; it fails with `Truncated` when they are not all present |
| Sections.Section5At | src/lib.rs:748-849 | Section 5 is accepted exactly when it has number 5, template 200, 8 bits per code and factor 1, is at least 17 octets, and its level table is present; the table has ((length - 17) mod 2^16) / 2 entries |
| Sections.Section6At | src/lib.rs:855-867 | Section 6 must have number 6; section 7 starts 6 octets after its start |
| Sections.Section8At | src/lib.rs:870-883 | Section 8 is accepted exactly when it is the literal "7777"; otherwise `MissingEndMarker` |
| Sections.OpenSpec | src/lib.rs:143-171 | An accepted header has the same point count in sections 3 and 5 |
| Sections.Section5Accepts | src/lib.rs:155-167 | From section 5 on, the header is accepted exactly when section 5's checks pass, its point count equals section 3's, and section 6 has number 6 |
| Sections.OpenSpecIsHeaderChecks | src/lib.rs:143-171 | `Grib2Csv::new` accepts a file exactly when every section check passes at the offsets where an accepted file's sections lie |
| Sections.OpenSpecHeader | src/lib.rs:143-171 | An accepted header holds the grid geometry at its fixed offsets in section 3 and `bits_per_data == 8`; section 7 starts right after section 6 |
| Sections.ReadConstant | src/lib.rs:419-434 | The reader method equals `ConstantAt` at the old position and advances by the field's width |
| Sections.ReadSectionNumber | src/lib.rs:731-739 | The reader method equals `SectionNumberAt` and advances one octet |
| Sections.ReadSection0 | src/lib.rs:389-434 | Sequential read of section 0; result and final position agree with `Section0At` |
| Sections.ReadReferencedAt | src/lib.rs:494-510 | The loop over the five date parts returns `ReferencedAt` and advances 7 octets |
| Sections.ReadSection1 | src/lib.rs:441-528 | Sequential read of section 1; agrees with `Section1At` |
| Sections.ReadSection3 | src/lib.rs:553-614 | Sequential read of section 3; agrees with `Section3At` |
| Sections.ReadSection3Grid | src/lib.rs:553-651 | Agrees with `Section3GridAt` |
| Sections.ReadSection3Shape | src/lib.rs:654-686 | Agrees with `Section3ShapeAt` |
| Sections.ReadSection3Extent | src/lib.rs:591-613 | Agrees with `Section3ExtentAt` |
| Sections.ReadSection3Corners | src/lib.rs:689-706 | Agrees with `Section3CornersAt` |
| Sections.ReadSection3Increments | src/lib.rs:709-725 | Agrees with `Section3IncrementsAt` |
| Sections.ReadSection4 | src/lib.rs:731-745 | Sequential read of section 4; agrees with `Section4At` |
| Sections.ReadLevelValues | src/lib.rs:789-794 | The push loop over the level table agrees with `LevelTableAt` |
| Sections.ReadSection5 | src/lib.rs:767-849 | Sequential read of section 5; agrees with `Section5At` |
| Sections.ReadSection6 | src/lib.rs:855-867 | Agrees with `Section6At` |
| Sections.ReadSection8 | src/lib.rs:870-883 | Agrees with `Section8At` |
| RunLength.ExpandRunLength | src/lib.rs:944-963 | Succeeds exactly when the set's first code is at most MAXV (otherwise the assertion panics); returns that level and a count of at least 1, and count 1 for a single code |
| RunLength.DigitSumIsHorner | src/lib.rs:953-962 | The source's sum of LNGU^i times each digit's offset equals Horner's rule, least significant digit first |
| RunLength.EncodeRunRoundTrip | src/lib.rs:944-963 | Expanding the set that encodes `count` repetitions of `level` gives back `(level, count)` |
| RunLength.DigitsInRange | src/lib.rs:911-933 | Every digit the encoder writes is at most MAXV + LNGU = 2^NBIT - 1, so it fits in NBIT bits |
| RunLength.DigitSumBound | src/lib.rs:953-962 | k digits below 2^NBIT encode a sum below LNGU^k |
| RunLength.HornerOfDigits | src/lib.rs:911-933 | Horner's rule over the base-LNGU digits of n gives n |
| RunLength.Split | src/lib.rs:211-245 | Cuts codes into sets as the decode loop does; only empty codes give no sets, and every piece is a set |
| RunLength.SplitIsSplit | src/lib.rs:211-245 | The sets concatenate to the codes; every set is one code followed by codes above MAXV; every set after the first starts with a level value |
| RunLength.SplitUnique | src/lib.rs:211-245 | Any cutting with those properties is `Split` |
| RunLength.SplitHead | src/lib.rs:211-245 | The first set starts with the first code |
| RunLength.Levels | src/lib.rs:211-245 | The levels of a list of sets succeed exactly when every set starts with a level value; otherwise the assertion panics |
| RunLength.Decode | src/lib.rs:211-245 | A code stream decodes exactly when it is empty or its first code is a level value; otherwise the assertion panics |
| RunLength.DocumentedExampleSets | src/lib.rs:918-933 | The documented codes {3, 9, 12, 6, 4, 15, 2, 1, 0, 13, 12, 2, 3} fall into the sets {3}, {9, 12}, {6}, {4, 15}, {2}, {1}, {0, 13, 12}, {2}, {3} |
| RunLength.DocumentedExampleHead | src/lib.rs:918-933 | The first four sets of the example, {3}, {9, 12}, {6}, {4, 15}, give the levels {3, 9, 9, 6, 4, 4, 4, 4, 4} |
| RunLength.DocumentedExample | src/lib.rs:918-933 | With NBIT 4 and MAXV 10 (so LNGU 5), the example decodes to {3, 9, 9, 6, 4, 4, 4, 4, 4, 2, 1, 0, 0, 0, 0, 0, 0, 0, 0, 2, 3} |
| RunLength.ExpandRunLengthExamples | src/lib.rs:1031-1068 | The unit tests: [3] gives (3, 1), [9, 12] gives (9, 2), [4, 15] gives (4, 5) and [0, 13, 12] gives (0, 8) |
| Boundaries.Contains | src/lib.rs:63-86 | A point is contained exactly when it is at or inside every side that is set; an unset side never excludes |
| Boundaries.ContainsIsIntersection | src/lib.rs:63-86 | Containment is the intersection of the four one-sided boundaries, whatever the order of the checks |
| Boundaries.UnboundedContainsAll | src/lib.rs:55-60 | The default boundary contains every point |
| Boundaries.SidesAreInclusive | src/lib.rs:63-86 | A fully set boundary contains its corners and no point one unit beyond any side |
| Boundaries.NarrowingNorthShrinks | src/lib.rs:63-86 | Lowering the northern side never admits a point that was excluded |
| Boundaries.ContainsExamples | src/lib.rs:1071-1107 | The unit tests of `contains`: the corners and centre of [135°, 136°] x [35°, 36°] are inside; points 0.1° beyond a side are outside |
| Boundaries.SetNorthernmost | src/lib.rs:98-102 | Sets the northern side and keeps the others |
| Boundaries.SetSouthernmost | src/lib.rs:104-108 | Sets the southern side and keeps the others |
| Boundaries.SetWesternmost | src/lib.rs:110-114 | Sets the western side and keeps the others |
| Boundaries.SetEasternmost | src/lib.rs:116-120 | Sets the eastern side and keeps the others |
| Boundaries.Build | src/lib.rs:122-129 | The boundary has exactly the builder's four sides |
| Boundaries.BuildAfterSetters | src/lib.rs:97-130 | Setting the four sides in any order gives exactly those sides; an untouched builder gives the default boundary |
| Lattice.Step | src/lib.rs:280-284 | One step moves one longitude increment east, or wraps to the western edge |
| Lattice.StepsAdd | src/lib.rs:269-285 | Stepping m + n times is stepping m times and then n times |
| Lattice.Column | src/lib.rs:319-350 | A cursor on the lattice is at `W + column * d`, with the column below the number of columns |
| Lattice.StepKeepsOnLattice | src/lib.rs:280-284 | A step keeps the cursor on the lattice |
| Lattice.StepsKeepOnLattice | src/lib.rs:269-285 | Any number of steps keeps the cursor on the lattice |
| Lattice.SkipOnLatticeStep | src/lib.rs:319-350 | The corrected closed form for n + 1 cells is one step after the closed form for n cells |
| Lattice.SkipOnLatticeIsSteps | src/lib.rs:319-350 | The corrected closed-form skip of `count` cells equals `count` cell-by-cell steps, for every count |
| Lattice.MoveLattice | src/lib.rs:288-296 | The cursor move of a missing-value run is exactly `count` steps of the walk |
| Lattice.MoveLatticeAsWritten | src/lib.rs:319-350 | The source's formula, with the underflow of `easternmost - westernmost`, the division by a zero width and the u64 underflow of the longitude offset as panics; it fails only with a panic |
| Lattice.RowWidth | src/lib.rs:330 | On a whole-increment lattice the row width is m increments, with m + 1 columns |
| Lattice.AsWrittenQuotient | src/lib.rs:332-342 | The source's quotient and remainder, in increments, are count / m and d * (count % m), and the subtraction stays non-negative exactly when count / m <= count % m |
| Lattice.AsWrittenSameRow | src/lib.rs:336-342 | When the source's formula stays in its row, it gives the stepped cursor |
| Lattice.AsWrittenNextRow | src/lib.rs:343-347 | When the source's formula passes the eastern edge, its correction gives the stepped cursor |
| Lattice.AsWrittenAgreesUnlessUnderflow | src/lib.rs:319-350 | On a grid whose width is a whole number m of increments, with the cursor on the grid: the source's formula succeeds exactly when count / m <= count % m; otherwise it is a subtraction-underflow panic; when it succeeds it equals `count` steps |
| Lattice.FullRowSkipUnderflows | src/lib.rs:341-342 | A run exactly one row wide from the western edge underflows in the source's formula, where stepping reaches the eastern edge |
| Lattice.AsWrittenExample1 | src/lib.rs:1110-1126 | The source's formula moves (135°,40°) 10 cells to (145°,40°), as its unit test expects |
| Lattice.AsWrittenExample2 | src/lib.rs:1129-1145 | The source's formula moves (140°,40°) 10 cells to (150°,40°), the eastern edge |
| Lattice.AsWrittenExample3 | src/lib.rs:1148-1164 | The source's formula moves (140°,40°) 11 cells to (130°,39°), wrapping to the next row |
| Lattice.AsWrittenExample4 | src/lib.rs:1167-1183 | The source's formula moves (145°,40°) 50 cells to (132°,37°), three rows south |
| Lattice.MoveLatticeExample1 | src/lib.rs:1110-1126 | The corrected skip gives (145°,40°) from (135°,40°) after 10 cells |
| Lattice.MoveLatticeExample2 | src/lib.rs:1129-1145 | The corrected skip gives (150°,40°) from (140°,40°) after 10 cells |
| Lattice.MoveLatticeExample3 | src/lib.rs:1148-1164 | The corrected skip gives (130°,39°) from (140°,40°) after 11 cells |
| Lattice.MoveLatticeExample4 | src/lib.rs:1167-1183 | The corrected skip gives (132°,37°) from (145°,40°) after 50 cells |
| Lattice.MoveLatticeCounterexample | src/lib.rs:341-342 | On the test grid, 20 cells from (130°,40°) make the source's formula underflow; stepping gives (150°,40°) |
| Walker.PointRows | src/lib.rs:270-279 | A point writes one row with `level_values[level - 1]` when its level is positive and it lies inside the boundary, and nothing otherwise; a level beyond the table is an index panic |
| Walker.RasterOk | src/lib.rs:269-285 | The raster succeeds exactly when every written point's level is in the table; any failure is an index panic |
| Walker.RasterRowsInBoundary | src/lib.rs:269-285 | Every row written lies inside the boundary and carries a table value; there are no more rows than points |
| Walker.RasterOfMissing | src/lib.rs:286-297 | A raster of missing values writes nothing |
| Walker.RasterUnbounded | src/lib.rs:269-285 | With no boundary and every level in the table, point i is written as the i-th row, at the cursor i steps on |
| Walker.RasterErrorSticks | src/lib.rs:269-285 | A failure on a prefix of the points is the failure of the whole raster |
| Walker.RasterAppend | src/lib.rs:222-244 | The raster of two runs is the first run's raster followed by the second run's, which starts where the first run's walk ends |
| Walker.OutputValuesSpec | src/lib.rs:260-300 | After a run the cursor is `count` steps on, whatever the boundary; a missing-value run writes nothing and moves by the corrected skip `Lattice.MoveLattice` |
| Walker.OutputValuesIsRaster | src/lib.rs:260-300 | A run's rows are the raster of `count` copies of its level |
| Converter.Lngu | src/lib.rs:207-209 | LNGU = 2^NBIT - 1 - MAXV in u16 arithmetic: it succeeds exactly when NBIT < 16 and MAXV < 2^NBIT; otherwise it is an overflow or underflow panic |
| Converter.PayloadAt | src/lib.rs:195-215 | Section 7 must have number 7 (otherwise a mismatch on 7); its codes start 5 octets in, and there are `section_bytes - 5` of them |
| Converter.ScanCode | src/lib.rs:216-232 | After each code the accumulated set is a non-empty set in the sense of `IsSet` |
| Converter.Scan | src/lib.rs:215-233 | The set accumulated by the loop is always empty or a set |
| Converter.ConvertSpec | src/lib.rs:182-258 | A conversion that succeeds had a section 7 header present, all of its codes present, and "7777" right after them |
| Converter.ScanErrorSticks | src/lib.rs:215-233 | A failure part-way through the codes is the loop's failure |
| Converter.ScanIsSplit | src/lib.rs:211-233 | The loop's state after any codes is `SplitState` of their `Split`: every set but the last processed in order, the last still open |
| Converter.ScanCodesStep | src/lib.rs:215-231 | One more code: a level value after a non-empty set processes that set and starts a new set with the code, and a processing failure is the loop's result; any other code is appended to the open set |
| Converter.ScanTruncatedAt | src/lib.rs:215-216 | When the data ends before the announced number of codes, and no earlier code has failed, the loop fails with `Truncated` |
| Converter.ProcessSetIsRaster | src/lib.rs:217-231 | Processing one more set extends the raster by that set's run |
| Converter.ProcessSetsIsRaster | src/lib.rs:211-245 | Processing the sets one by one equals expanding them all to levels and writing the raster of those levels; `number_of_read` grows by the number of levels |
| Converter.DecodeIsLevelsOfSplit | src/lib.rs:211-245 | Decoding is the levels of the split sets |
| Converter.ScanFinishIsRaster | src/lib.rs:211-245 | The loop plus the final set equals decoding the codes and writing the raster from the north-west corner; `number_of_read` is the number of decoded levels |
| Converter.CheckRead | src/lib.rs:246-255 | After the codes, the conversion succeeds exactly when the number of points read equals section 3's point count and "7777" follows; the result is the rows written; a failure is a count mismatch or a missing end marker |
| Converter.ConvertIsDecodeThenRaster | src/lib.rs:211-255 | A complete section 7 converts exactly as `DecodeThenRaster`: decode the codes to levels, write the raster of those levels from the north-west corner, then require one level per grid point (otherwise a count mismatch) and "7777" |
| Converter.DecodeThenRasterAssertion | src/lib.rs:211-255 | On a complete section 7, the conversion fails with the assertion panic exactly when the codes do not decode |
| Converter.ConvertSound | src/lib.rs:211-255 | After a successful conversion: the codes decode to exactly one level per grid point, and every row lies inside the boundary and carries a table value |
| Converter.AssertionOnlyOnFirstCode | src/lib.rs:945 | On a complete section 7, the assertion of `expand_run_length` fails exactly when the first code is above MAXV |
| Converter.ProcessSetErrors | src/lib.rs:219-229 | In the model, where missing-value runs use the corrected skip, a set fails only on the assertion or on a level missing from the table |
| Converter.ScanErrors | src/lib.rs:215-233 | In the model, with the corrected skip, the decode loop fails only with one of those two panics |
| Converter.TruncatedSection7Fails | src/lib.rs:215-216 | A section 7 with fewer codes than announced never converts; in the model, with the corrected skip, the error is `Truncated` or one of those two panics on the codes present |
| Converter.ScanPayloadErrorAt | src/lib.rs:215-233 | A failure after the first n codes is the loop's result |
| Converter.Grib2Csv.constructor | src/lib.rs:164-170 | The converter keeps the reader and the two sections |
| Converter.Grib2Csv.New | src/lib.rs:143-171 | Succeeds exactly when `OpenSpec` accepts the bytes, with the same error otherwise; the new converter holds the parsed sections and its reader is at section 7 |
| Converter.Grib2Csv.OutputValues | src/lib.rs:260-300 | The loop over the run's cells returns `OutputValuesSpec`: the cursor `count` steps on and the raster of the run; a missing-value run moves by the corrected skip |
| Converter.Grib2Csv.ProcessRun | src/lib.rs:219-229 | Expands one set and writes its run, as `ProcessSet` |
| Converter.Grib2Csv.ReadSection7Start | src/lib.rs:195-209 | Reading section 7 up to the first code returns `PayloadAt` and leaves the reader at the first code |
| Converter.Grib2Csv.ScanCodes | src/lib.rs:211-233 | The decode loop over the codes returns what `ScanPayload` specifies and leaves the reader after the last code |
| Converter.Grib2Csv.Convert | src/lib.rs:182-258 | The whole conversion from the reader's position returns `ConvertSpec` |

## Left out

- File and CSV I/O are not modelled. This covers opening the input and output files, `BufWriter`, `writeln!`, the optional header line (`with_header`) and flushing. The rows are returned as a sequence instead.
- Rows written before an error are not modelled. The source leaves them in the CSV file; here a failure returns only the error.
- The `f64` division by 10^6 when formatting a row is floating point. Rows keep the integer coordinates.
- `RefCell` borrowing is not modelled; the `Grib2Csv` class owns its `Reader`.
- `BufReader`'s short reads at buffer boundaries are not modelled. A read returns fewer bytes only at the end of the data.
- FieldReader.Reader.SeekRelative: a seek past the end succeeds, as a file seek does, and the next read fails with `Truncated`. The model never fails on the seek itself.
- Error messages are not modelled. The source's `anyhow` errors become a small `Error` datatype that keeps the facts they report (field, expected and actual value, section number).
- Sections.ReferencedAt: the date is checked by a concrete `ValidDateTime` predicate (`time` crate rules: year up to 9999, Gregorian month lengths, hour, minute and second ranges). It stands in for the foreign `time` crate. The parsed date itself is discarded, as in the source.
- Panics follow a debug build: u32 subtraction underflow, u16 overflow, index out of bounds and the failed assertion become `Err(Panicked(...))`. A release build would wrap instead.
- RunLength.ExpandRunLength: it requires a set shaped as the decode loop builds it (one code followed by codes above MAXV). `convert` only ever passes such sets (`Converter.ScanCode`). For any other slice the source's `v - (maxv + 1)` would underflow. The u32 overflow of `lngu.pow(i)` and of the sum is not modelled; the count is an unbounded integer.
- Converter.Lngu: models the u16 overflow of `2u16.pow(nbit)` and the underflow of the subtraction. The header accepts only NBIT = 8, so only the underflow is reachable.
- Converter.ConvertSpec: `number_of_read` is unbounded, not a wrapping u32.
- Walker.OutputValuesSpec: longitude and latitude are unbounded integers. The u32 underflow of `latitude -= latitude_increment` at the south edge and the overflow of `longitude += longitude_increment` are not modelled.
- Lattice.MoveLattice: this is the corrected skip. The source's formula is modelled separately as `Lattice.MoveLatticeAsWritten`.
- Lattice.MoveLatticeAsWritten: models the width underflow, the division by zero, the u64 underflow of the longitude offset and the u32 underflow of `longitude - easternmost - longitude_increment` as panics. It does not model the other u32 arithmetic of the formula. The u32 underflows of `latitude -= latitude_increment * lat_inc_times as u32` and of `latitude -= latitude_increment` are not panics here; latitude is an unbounded integer. The overflows of `longitude += …`, of `westernmost + (…)` and of the product `latitude_increment * lat_inc_times` are not modelled either, and neither is the truncating `as u32` cast.
- Walker.OutputValuesSpec: a missing-value run moves the cursor by the corrected skip `Lattice.MoveLattice`, not by the source's formula. So the model's conversion does not have the formula's debug-build panics: the u64 underflow whenever count / m > count % m (m = row width in increments), the underflow when `easternmost < westernmost`, and the division by zero when they are equal. Nor does it have the release-build displacement that replaces the first panic: on the test grid, 20 cells from (130°,40°) give (129°,39°) in the source, where stepping gives (150°,40°). `Lattice.AsWrittenAgreesUnlessUnderflow` states exactly when the two skips agree.
- OutputValues (`Converter.Grib2Csv.OutputValues`): its level-0 branch uses the corrected skip, as `Walker.OutputValuesSpec` does, so it never fails on a missing-value run.
- Converter.ConvertSpec: a conversion uses the corrected skip for missing-value runs. A file that the source rejects with a skip panic, or decodes with a displaced cursor, converts here along the stepped raster.
- ProcessSetErrors (`Converter.ProcessSetErrors`): lists only the panics of the model's conversion. The source can also fail a set of level 0 with the skip panics named above.
- ScanErrors (`Converter.ScanErrors`): lists only the panics of the model's conversion, without the skip panics of the source.
- TruncatedSection7Fails (`Converter.TruncatedSection7Fails`): the panics it admits on the codes present leave out the skip panics of the source.
- The `max_level_at_file <= max_level` relation is checked only in a test of the source, not by the parser. It is not part of the model.
- `src/main.rs`, the command-line front end, is not part of this model. Nor is `tests/convert_one_file.rs`, an integration test that needs a binary fixture.

Notes on the source's behaviour:

- The section 5 level table has `((length - 17) as u16) / 2` entries: the remainder is truncated to 16 bits before halving (`Sections.LevelCount`).
- The skip over missing values departs from the source's own comments at src/lib.rs:337-340 and src/lib.rs:344. Those comments describe the stepping walk: one increment east per cell, and a wrap to the western edge one row south. The formula does not match that walk for every count. See the finding below.
- A truncated or corrupt section 7 can also stop with a panic, not only with `Truncated` or a count mismatch. In the model, with the corrected skip, the panic comes from the assertion in `expand_run_length` or from a level beyond the table. The source can also panic in the skip, as listed under `Walker.OutputValuesSpec` above.

## Findings

| source | as written | input that shows it | evidently intended | confidence | as-written member | corrected member |
|---|---|---|---|---|---|---|
| src/lib.rs:341-342 | The longitude offset is `(sum % width) - lon_inc * (sum / width)` in u64. It underflows whenever the run crosses more rows than it has leftover increments (count / m > count % m, m = width / lon_inc). | Test grid W = 130°, E = 150°, 1° increments; from (130°,40°) skip 20 cells: sum % width = 0, and 1° * 1 is subtracted from it | Move `count` cells in raster order, as stepping does: position plus count, split into row and column over m + 1 columns | not executed | Lattice.MoveLatticeAsWritten, Lattice.MoveLatticeCounterexample, Lattice.FullRowSkipUnderflows | Lattice.MoveLattice, Lattice.SkipOnLatticeIsSteps |
