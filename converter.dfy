/** Grib2Csv: opening a file (the header sections 0 to 6) and converting
    its section 7 into rows.  The conversion is specified by ConvertSpec, a
    left fold over the run-length codes that mirrors the decode loop, and
    ConvertSpec is then shown to equal the reference meaning of a section 7:
    decode the codes to one level per grid point (RunLength.Decode) and write
    the raster of those levels (Walker.Raster). */
module Converter {
  import opened Errors
  import opened FieldReader
  import opened Sections
  import opened Boundaries
  import opened Lattice
  import opened RunLength
  import opened Walker

  /** LNGU = 2^NBIT - 1 - MAXV computed in u16 arithmetic: 2^NBIT overflows
      from NBIT = 16 on, and the subtraction underflows when MAXV is not below
      2^NBIT (the panics of a debug build). */
  function Lngu(nbit: nat, maxv: nat): (r: Result<nat>)
    ensures r.Ok? <==> nbit < 16 && maxv < Power(2, nbit)
    ensures r.Ok? ==> r.value + maxv + 1 == Power(2, nbit)
    ensures r.Err? ==> r.error == (if 16 <= nbit then Panicked(ArithmeticOverflow) else Panicked(SubtractionUnderflow))
  {
    if 16 <= nbit then Err(Panicked(ArithmeticOverflow))
    else if Power(2, nbit) - 1 < maxv then Err(Panicked(SubtractionUnderflow))
    else Ok(Power(2, nbit) - 1 - maxv)
  }

  /** What the start of section 7 announces: LNGU, where the codes begin and
      how many there are. */
  datatype Payload = Payload(lngu: nat, start: nat, count: nat)

  /** The start of section 7: a four-octet length, the section number 7, then
      the codes, length - 5 of them. */
  function PayloadAt(data: seq<byte>, pos: nat, s5: Section5): (r: Result<Payload>)
    ensures r.Ok? ==> && pos + 5 <= |data| && data[pos + 4] == 7
                      && r.value.start == pos + 5
                      && r.value.start + r.value.count == pos + U32At(data, pos).value
                      && Lngu(s5.bitsPerData, s5.maxLevelAtFile) == Ok(r.value.lngu)
    ensures pos + 5 <= |data| && data[pos + 4] != 7 ==> r == Err(SectionNumberMismatch(7, data[pos + 4]))
    ensures |data| < pos + 5 ==> r == Err(Truncated)
  {
    var length :- U32At(data, pos);
    var number :- U8At(data, pos + 4);
    if number != 7 then Err(SectionNumberMismatch(7, number))
    else
      var lngu :- Lngu(s5.bitsPerData, s5.maxLevelAtFile);
      if length < 5 then Err(Panicked(SubtractionUnderflow))
      else Ok(Payload(lngu, pos + 5, length - 5))
  }

  // ---------------------------------------------------------------------
  // The decode loop as a fold over the codes.

  /** The variables the decode loop carries from set to set: the cursor
      (longitude, latitude), number_of_read and the rows written so far. */
  datatype Walk = Walk(cursor: Cursor, read: nat, rows: seq<Row>)

  /** The loop's full state: the set being accumulated (run_length) and the walk. */
  datatype ScanState = ScanState(run: seq<nat>, walk: Walk)

  function MaxV(h: Header): nat { h.section5.maxLevelAtFile }

  /** One completed set: expand it, add its count to number_of_read and
      write its run. */
  function ProcessSet(h: Header, b: Boundary, lngu: nat, w: Walk, set_: seq<nat>): Result<Walk>
    requires IsSet(set_, MaxV(h))
  {
    var run :- ExpandRunLength(set_, MaxV(h), lngu);
    var out :- OutputValuesSpec(h.section3, b, h.section5.levelValues, run.0, run.1, w.cursor);
    Ok(Walk(out.0, w.read + run.1, w.rows + out.1))
  }

  /** Completed sets, in order; the first failure stops the walk. */
  function ProcessSets(h: Header, b: Boundary, lngu: nat, w: Walk, sets: seq<seq<nat>>): Result<Walk>
    requires forall k :: 0 <= k < |sets| ==> IsSet(sets[k], MaxV(h))
  {
    if |sets| == 0 then Ok(w)
    else
      var w' :- ProcessSets(h, b, lngu, w, sets[..|sets| - 1]);
      ProcessSet(h, b, lngu, w', sets[|sets| - 1])
  }

  /** The set the loop accumulates is empty (before the first code) or a set. */
  predicate OpenRun(run: seq<nat>, maxv: nat)
  {
    run == [] || IsSet(run, maxv)
  }

  /** One code: a level value closes the open set, which is processed, and
      starts a new one; any other code extends the open set. */
  function ScanCode(h: Header, b: Boundary, lngu: nat, st: ScanState, value: nat): (r: Result<ScanState>)
    requires OpenRun(st.run, MaxV(h))
    ensures r.Ok? ==> OpenRun(r.value.run, MaxV(h)) && r.value.run != []
  {
    if value <= MaxV(h) && st.run != [] then
      var w :- ProcessSet(h, b, lngu, st.walk, st.run);
      Ok(ScanState([value], w))
    else
      if st.run != [] then AppendDigit(st.run, value, MaxV(h)); Ok(ScanState(st.run + [value], st.walk))
      else Ok(ScanState([value], st.walk))
  }

  /** The loop over a sequence of codes. */
  function Scan(h: Header, b: Boundary, lngu: nat, initial: ScanState, codes: seq<nat>): (r: Result<ScanState>)
    requires OpenRun(initial.run, MaxV(h))
    ensures r.Ok? ==> OpenRun(r.value.run, MaxV(h))
  {
    if |codes| == 0 then Ok(initial)
    else
      var st :- Scan(h, b, lngu, initial, codes[..|codes| - 1]);
      ScanCode(h, b, lngu, st, codes[|codes| - 1])
  }

  /** After the loop: the set still open is processed. */
  function Finish(h: Header, b: Boundary, lngu: nat, st: ScanState): Result<Walk>
    requires OpenRun(st.run, MaxV(h))
  {
    if st.run == [] then Ok(st.walk) else ProcessSet(h, b, lngu, st.walk, st.run)
  }

  /** The walk starts at the north-west corner with nothing read or written. */
  function Initial(g: Section3): ScanState
  {
    ScanState([], Walk(Cursor(g.westernmost, g.northernmost), 0, []))
  }

  /** The decode loop over the codes of section 7: the codes present are
      scanned, and if fewer than announced are present the loop stops with
      Truncated where the first missing code would be read. */
  function ScanPayload(data: seq<byte>, h: Header, b: Boundary, p: Payload): Result<ScanState>
    requires p.start <= |data|
  {
    if |data| < p.start + p.count then
      var _ :- Scan(h, b, p.lngu, Initial(h.section3), data[p.start..]);
      Err(Truncated)
    else
      Scan(h, b, p.lngu, Initial(h.section3), data[p.start..p.start + p.count])
  }

  /** Grib2Csv::convert from section 7 at `pos`: read the codes one by one,
      process the last set, compare the points read with the grid's point
      count, and require the end marker right after the codes. */
  function ConvertSpec(data: seq<byte>, pos: nat, h: Header, b: Boundary): (r: Result<seq<Row>>)
    ensures r.Ok? ==> && PayloadAt(data, pos, h.section5).Ok?
                      && var p := PayloadAt(data, pos, h.section5).value;
                         p.start + p.count <= |data| && Section8At(data, p.start + p.count).Ok?
  {
    var p :- PayloadAt(data, pos, h.section5);
    var st :- ScanPayload(data, h, b, p);
    var w :- Finish(h, b, p.lngu, st);
    CheckRead(data, h.section3, p.start + p.count, w)
  }

  /** After the last set: the points read must be the grid's point count,
      and the end marker must follow the codes. */
  function CheckRead(data: seq<byte>, g: Section3, end: nat, w: Walk): (r: Result<seq<Row>>)
    ensures r.Ok? <==> w.read == g.numberOfPoints && Section8At(data, end).Ok?
    ensures r.Ok? ==> r.value == w.rows
    ensures r.Err? ==> r.error == ReadCountMismatch(g.numberOfPoints, w.read) || r.error == MissingEndMarker
  {
    if w.read != g.numberOfPoints then Err(ReadCountMismatch(g.numberOfPoints, w.read))
    else
      var _ :- Section8At(data, end);
      Ok(w.rows)
  }

  // ---------------------------------------------------------------------
  // What the fold computes.

  function Init(sets: seq<seq<nat>>): seq<seq<nat>>
  {
    if |sets| == 0 then [] else sets[..|sets| - 1]
  }

  function Last(sets: seq<seq<nat>>): seq<nat>
  {
    if |sets| == 0 then [] else sets[|sets| - 1]
  }

  /** An error part-way through the codes is the loop's error. */
  lemma {:induction false} ScanErrorSticks(h: Header, b: Boundary, lngu: nat, initial: ScanState, codes: seq<nat>, n: nat)
    requires OpenRun(initial.run, MaxV(h))
    requires n <= |codes| && Scan(h, b, lngu, initial, codes[..n]).Err?
    ensures Scan(h, b, lngu, initial, codes) == Scan(h, b, lngu, initial, codes[..n])
    decreases |codes| - n
  {
    if n < |codes| {
      var init := codes[..|codes| - 1];
      assert init[..n] == codes[..n];
      ScanErrorSticks(h, b, lngu, initial, init, n);
    } else {
      assert codes[..n] == codes;
    }
  }

  /** The loop state Split predicts: every set but the last processed, the
      last one still open. */
  function SplitState(h: Header, b: Boundary, lngu: nat, w: Walk, sets: seq<seq<nat>>): (r: Result<ScanState>)
    requires forall k :: 0 <= k < |sets| ==> IsSet(sets[k], MaxV(h))
    ensures r.Ok? ==> r.value.run == Last(sets) && OpenRun(r.value.run, MaxV(h))
  {
    var w' :- ProcessSets(h, b, lngu, w, Init(sets));
    Ok(ScanState(Last(sets), w'))
  }

  /** The loop splits the codes as Split does: it has processed every set
      but the last, which is the one still open. */
  lemma {:induction false} ScanIsSplit(h: Header, b: Boundary, lngu: nat, w: Walk, codes: seq<nat>)
    ensures Scan(h, b, lngu, ScanState([], w), codes) == SplitState(h, b, lngu, w, Split(codes, MaxV(h)))
    decreases |codes|
  {
    if |codes| > 0 {
      var init := codes[..|codes| - 1];
      ScanIsSplit(h, b, lngu, w, init);
      SplitSnoc(codes, MaxV(h));
      SplitStateStep(h, b, lngu, w, Split(init, MaxV(h)), codes[|codes| - 1], Split(codes, MaxV(h)));
    }
  }

  /** One more code moves the predicted state as the loop does. */
  lemma SplitStateStep(h: Header, b: Boundary, lngu: nat, w: Walk, prev: seq<seq<nat>>, v: nat, sets: seq<seq<nat>>)
    requires forall k :: 0 <= k < |prev| ==> IsSet(prev[k], MaxV(h))
    requires forall k :: 0 <= k < |sets| ==> IsSet(sets[k], MaxV(h))
    requires if v <= MaxV(h) || prev == [] then Init(sets) == prev && Last(sets) == [v]
             else Init(sets) == Init(prev) && Last(sets) == Last(prev) + [v]
    ensures SplitState(h, b, lngu, w, sets) == (var st :- SplitState(h, b, lngu, w, prev); ScanCode(h, b, lngu, st, v))
  {
    if v <= MaxV(h) && prev != [] {
      ProcessSetsSnoc(h, b, lngu, w, prev);
    }
  }

  /** How Split changes when one code is added. */
  lemma SplitSnoc(codes: seq<nat>, maxv: nat)
    requires 0 < |codes|
    ensures var prev := Split(codes[..|codes| - 1], maxv);
            var v := codes[|codes| - 1];
            if v <= maxv || prev == [] then
              Init(Split(codes, maxv)) == prev && Last(Split(codes, maxv)) == [v]
            else
              Init(Split(codes, maxv)) == Init(prev) && Last(Split(codes, maxv)) == Last(prev) + [v]
  {
    var prev := Split(codes[..|codes| - 1], maxv);
    var v := codes[|codes| - 1];
    if v <= maxv || prev == [] {
      assert (prev + [[v]])[..|prev|] == prev;
    } else {
      var t := prev[..|prev| - 1] + [prev[|prev| - 1] + [v]];
      assert t[..|t| - 1] == prev[..|prev| - 1];
    }
  }

  /** The sets processed one by one: the last one after all the others. */
  lemma ProcessSetsSnoc(h: Header, b: Boundary, lngu: nat, w: Walk, sets: seq<seq<nat>>)
    requires 0 < |sets| && forall k :: 0 <= k < |sets| ==> IsSet(sets[k], MaxV(h))
    ensures ProcessSets(h, b, lngu, w, sets) ==
              (var w' :- ProcessSets(h, b, lngu, w, Init(sets)); ProcessSet(h, b, lngu, w', Last(sets)))
  {
  }

  /** The reference meaning of a sequence of sets: expand them all to levels
      and write the raster of those levels. */
  function RasterWalk(h: Header, b: Boundary, lngu: nat, w: Walk, sets: seq<seq<nat>>): Result<Walk>
    requires forall k :: 0 <= k < |sets| ==> IsSet(sets[k], MaxV(h))
  {
    var levels :- Levels(sets, MaxV(h), lngu);
    var rows :- Raster(h.section3, b, h.section5.levelValues, w.cursor, levels);
    Ok(Walk(Steps(h.section3, w.cursor, |levels|), w.read + |levels|, w.rows + rows))
  }

  /** One more set, once the sets before it have succeeded. */
  lemma ProcessSetIsRaster(h: Header, b: Boundary, lngu: nat, w: Walk, levels: seq<nat>, rows: seq<Row>, set_: seq<nat>)
    requires IsSet(set_, MaxV(h)) && StartsWithLevel(set_, MaxV(h))
    requires Raster(h.section3, b, h.section5.levelValues, w.cursor, levels) == Ok(rows)
    ensures var run := ExpandRunLength(set_, MaxV(h), lngu).value;
            var all := levels + Repeat(run.0, run.1);
            ProcessSet(h, b, lngu, Walk(Steps(h.section3, w.cursor, |levels|), w.read + |levels|, w.rows + rows), set_) ==
              (var rows' :- Raster(h.section3, b, h.section5.levelValues, w.cursor, all);
               Ok(Walk(Steps(h.section3, w.cursor, |all|), w.read + |all|, w.rows + rows')))
  {
    var g := h.section3;
    var table := h.section5.levelValues;
    var run := ExpandRunLength(set_, MaxV(h), lngu).value;
    var repeat := Repeat(run.0, run.1);
    var mid := Steps(g, w.cursor, |levels|);
    ProcessSetOfRun(h, b, lngu, Walk(mid, w.read + |levels|, w.rows + rows), set_);
    RasterAppend(g, b, table, w.cursor, levels, repeat);
    StepsAdd(g, w.cursor, |levels|, run.1);
    var more := Raster(g, b, table, mid, repeat);
    if more.Ok? {
      assert (w.rows + rows) + more.value == w.rows + (rows + more.value);
    }
  }

  /** A set that starts with a level value writes the raster of its run. */
  lemma ProcessSetOfRun(h: Header, b: Boundary, lngu: nat, w: Walk, set_: seq<nat>)
    requires IsSet(set_, MaxV(h)) && StartsWithLevel(set_, MaxV(h))
    ensures var run := ExpandRunLength(set_, MaxV(h), lngu).value;
            ProcessSet(h, b, lngu, w, set_) ==
              (var more :- Raster(h.section3, b, h.section5.levelValues, w.cursor, Repeat(run.0, run.1));
               Ok(Walk(Steps(h.section3, w.cursor, run.1), w.read + run.1, w.rows + more)))
  {
    var run := ExpandRunLength(set_, MaxV(h), lngu).value;
    OutputValuesIsRaster(h.section3, b, h.section5.levelValues, run.0, run.1, w.cursor);
  }

  /** Processing the sets one by one is the raster of all their levels, as
      long as only the first set may lack a level value (as Split ensures). */
  lemma {:induction false} ProcessSetsIsRaster(h: Header, b: Boundary, lngu: nat, w: Walk, sets: seq<seq<nat>>)
    requires forall k :: 0 <= k < |sets| ==> IsSet(sets[k], MaxV(h))
    requires forall k :: 1 <= k < |sets| ==> StartsWithLevel(sets[k], MaxV(h))
    ensures ProcessSets(h, b, lngu, w, sets) == RasterWalk(h, b, lngu, w, sets)
    decreases |sets|
  {
    if |sets| == 0 {
      assert w.rows + [] == w.rows;
    } else {
      var maxv := MaxV(h);
      var init := sets[..|sets| - 1];
      var last := sets[|sets| - 1];
      ProcessSetsIsRaster(h, b, lngu, w, init);
      var lv := Levels(init, maxv, lngu);
      if |sets| == 1 {
        assert init == [];
        assert w.rows + [] == w.rows;
        if StartsWithLevel(last, maxv) {
          ProcessSetIsRaster(h, b, lngu, w, [], [], last);
        }
      } else if lv.Ok? {
        var raster := Raster(h.section3, b, h.section5.levelValues, w.cursor, lv.value);
        var run := ExpandRunLength(last, maxv, lngu).value;
        RasterAppend(h.section3, b, h.section5.levelValues, w.cursor, lv.value, Repeat(run.0, run.1));
        if raster.Ok? {
          ProcessSetIsRaster(h, b, lngu, w, lv.value, raster.value, last);
        }
      }
    }
  }

  /** Decode is Levels over Split, also for an empty stream. */
  lemma DecodeIsLevelsOfSplit(codes: seq<nat>, maxv: nat, lngu: nat)
    ensures forall k :: 0 <= k < |Split(codes, maxv)| ==> IsSet(Split(codes, maxv)[k], maxv)
    ensures Decode(codes, maxv, lngu) == Levels(Split(codes, maxv), maxv, lngu)
  {
  }

  /** The decode loop followed by the last set is the reference meaning of
      the codes: decode them to one level per grid point and write the raster
      of those levels from the north-west corner. */
  lemma ScanFinishIsRaster(h: Header, b: Boundary, lngu: nat, codes: seq<nat>)
    ensures var g := h.section3;
            (var st :- Scan(h, b, lngu, Initial(g), codes); Finish(h, b, lngu, st)) ==
              (var levels :- Decode(codes, MaxV(h), lngu);
               var rows :- Raster(g, b, h.section5.levelValues, Cursor(g.westernmost, g.northernmost), levels);
               Ok(Walk(Steps(g, Cursor(g.westernmost, g.northernmost), |levels|), |levels|, rows)))
  {
    var maxv := MaxV(h);
    var w := Initial(h.section3).walk;
    var sets := Split(codes, maxv);
    ScanIsSplit(h, b, lngu, w, codes);
    FinishSplitState(h, b, lngu, w, sets);
    SplitIsSplit(codes, maxv);
    DecodeIsLevelsOfSplit(codes, maxv, lngu);
    ProcessSetsIsRaster(h, b, lngu, w, sets);
    var levels := Decode(codes, maxv, lngu);
    if levels.Ok? {
      var rows := Raster(h.section3, b, h.section5.levelValues, w.cursor, levels.value);
      if rows.Ok? {
        assert [] + rows.value == rows.value;
      }
    }
  }

  /** Processing the set left open after the predicted state is processing
      all the sets. */
  lemma FinishSplitState(h: Header, b: Boundary, lngu: nat, w: Walk, sets: seq<seq<nat>>)
    requires forall k :: 0 <= k < |sets| ==> IsSet(sets[k], MaxV(h))
    ensures (var st :- SplitState(h, b, lngu, w, sets); Finish(h, b, lngu, st)) == ProcessSets(h, b, lngu, w, sets)
  {
    if |sets| > 0 {
      ProcessSetsSnoc(h, b, lngu, w, sets);
    }
  }

  /** The reference meaning of a complete section 7: decode the codes, write
      the raster of their levels, require as many levels as grid points, and
      require the end marker. */
  function DecodeThenRaster(data: seq<byte>, h: Header, b: Boundary, p: Payload): Result<seq<Row>>
    requires p.start + p.count <= |data|
  {
    var g := h.section3;
    var levels :- Decode(data[p.start..p.start + p.count], MaxV(h), p.lngu);
    var rows :- Raster(g, b, h.section5.levelValues, Cursor(g.westernmost, g.northernmost), levels);
    CheckRead(data, g, p.start + p.count, Walk(Steps(g, Cursor(g.westernmost, g.northernmost), |levels|), |levels|, rows))
  }

  /** The conversion of a complete section 7 is its reference meaning. */
  lemma ConvertIsDecodeThenRaster(data: seq<byte>, pos: nat, h: Header, b: Boundary, p: Payload)
    requires PayloadAt(data, pos, h.section5) == Ok(p) && p.start + p.count <= |data|
    ensures ConvertSpec(data, pos, h, b) == DecodeThenRaster(data, h, b, p)
  {
    var codes: seq<nat> := data[p.start..p.start + p.count];
    ConvertOfComplete(data, pos, h, b, p);
    ScanFinishIsRaster(h, b, p.lngu, codes);
    DecodeThenRasterChecks(data, h, b, p);
  }

  /** With a complete section 7 the conversion is the loop, the last set and
      the final checks. */
  lemma ConvertOfComplete(data: seq<byte>, pos: nat, h: Header, b: Boundary, p: Payload)
    requires PayloadAt(data, pos, h.section5) == Ok(p) && p.start + p.count <= |data|
    ensures ConvertSpec(data, pos, h, b) ==
              (var w :- (var st :- Scan(h, b, p.lngu, Initial(h.section3), data[p.start..p.start + p.count]);
                         Finish(h, b, p.lngu, st));
               CheckRead(data, h.section3, p.start + p.count, w))
  {
  }

  /** The reference meaning is the raster walk followed by the final checks. */
  lemma DecodeThenRasterChecks(data: seq<byte>, h: Header, b: Boundary, p: Payload)
    requires p.start + p.count <= |data|
    ensures var g := h.section3;
            DecodeThenRaster(data, h, b, p) ==
              (var w :- (var levels :- Decode(data[p.start..p.start + p.count], MaxV(h), p.lngu);
                         var rows :- Raster(g, b, h.section5.levelValues, Cursor(g.westernmost, g.northernmost), levels);
                         Ok(Walk(Steps(g, Cursor(g.westernmost, g.northernmost), |levels|), |levels|, rows)));
               CheckRead(data, g, p.start + p.count, w))
  {
  }

  /** In the reference meaning the assertion of expand_run_length is the
      error exactly when decoding fails. */
  lemma DecodeThenRasterAssertion(data: seq<byte>, h: Header, b: Boundary, p: Payload)
    requires p.start + p.count <= |data|
    ensures DecodeThenRaster(data, h, b, p) == Err(Panicked(AssertionFailed)) <==>
              Decode(data[p.start..p.start + p.count], MaxV(h), p.lngu).Err?
  {
    var g := h.section3;
    var levels := Decode(data[p.start..p.start + p.count], MaxV(h), p.lngu);
    if levels.Ok? {
      DecodedThenRaster(data, h, b, p, levels.value);
      RasterOk(g, b, h.section5.levelValues, Cursor(g.westernmost, g.northernmost), levels.value);
    }
  }

  /** DecodeThenRaster once the codes have decoded. */
  lemma DecodedThenRaster(data: seq<byte>, h: Header, b: Boundary, p: Payload, levels: seq<nat>)
    requires p.start + p.count <= |data|
    requires Decode(data[p.start..p.start + p.count], MaxV(h), p.lngu) == Ok(levels)
    ensures var g := h.section3;
            var nw := Cursor(g.westernmost, g.northernmost);
            DecodeThenRaster(data, h, b, p) ==
              (var rows :- Raster(g, b, h.section5.levelValues, nw, levels);
               CheckRead(data, g, p.start + p.count, Walk(Steps(g, nw, |levels|), |levels|, rows)))
  {
  }

  /** Consequences for a conversion that succeeds: section 7 is complete, its
      codes decode to exactly one level per grid point, and every row lies
      inside the boundary and carries a value of the level table. */
  lemma ConvertSound(data: seq<byte>, pos: nat, h: Header, b: Boundary, p: Payload, rows: seq<Row>)
    requires PayloadAt(data, pos, h.section5) == Ok(p) && ConvertSpec(data, pos, h, b) == Ok(rows)
    ensures p.start + p.count <= |data|
    ensures var levels := Decode(data[p.start..p.start + p.count], MaxV(h), p.lngu);
            && levels.Ok? && |levels.value| == h.section3.numberOfPoints
            && |rows| <= h.section3.numberOfPoints
            && forall k :: 0 <= k < |rows| ==>
                 Contains(b, rows[k].longitude, rows[k].latitude) && rows[k].value in h.section5.levelValues
  {
    var g := h.section3;
    ConvertIsDecodeThenRaster(data, pos, h, b, p);
    DecodeThenRasterOk(data, h, b, p, rows);
    var levels := Decode(data[p.start..p.start + p.count], MaxV(h), p.lngu).value;
    RasterRowsInBoundary(g, b, h.section5.levelValues, Cursor(g.westernmost, g.northernmost), levels);
  }

  /** A reference meaning that succeeds decodes to one level per grid point
      and returns the raster of those levels. */
  lemma DecodeThenRasterOk(data: seq<byte>, h: Header, b: Boundary, p: Payload, rows: seq<Row>)
    requires p.start + p.count <= |data| && DecodeThenRaster(data, h, b, p) == Ok(rows)
    ensures var g := h.section3;
            var levels := Decode(data[p.start..p.start + p.count], MaxV(h), p.lngu);
            && levels.Ok? && |levels.value| == g.numberOfPoints
            && Raster(g, b, h.section5.levelValues, Cursor(g.westernmost, g.northernmost), levels.value) == Ok(rows)
  {
  }

  /** The assertion of expand_run_length fails on a complete section 7
      exactly when its first code is not a level value. */
  lemma AssertionOnlyOnFirstCode(data: seq<byte>, pos: nat, h: Header, b: Boundary, p: Payload)
    requires PayloadAt(data, pos, h.section5) == Ok(p) && p.start + p.count <= |data|
    ensures ConvertSpec(data, pos, h, b) == Err(Panicked(AssertionFailed)) <==>
              0 < p.count && MaxV(h) < data[p.start]
  {
    ConvertIsDecodeThenRaster(data, pos, h, b, p);
    DecodeThenRasterAssertion(data, h, b, p);
    var codes: seq<nat> := data[p.start..p.start + p.count];
    assert 0 < |codes| ==> codes[0] == data[p.start];
  }

  /** A set fails only on the assertion of expand_run_length or on a level
      missing from the table. */
  lemma ProcessSetErrors(h: Header, b: Boundary, lngu: nat, w: Walk, set_: seq<nat>)
    requires IsSet(set_, MaxV(h))
    ensures var r := ProcessSet(h, b, lngu, w, set_);
            r.Err? ==> r.error == Panicked(AssertionFailed) || r.error == Panicked(IndexOutOfBounds)
  {
    var run := ExpandRunLength(set_, MaxV(h), lngu);
    if run.Ok? {
      RasterOk(h.section3, b, h.section5.levelValues, w.cursor, Repeat(run.value.0, run.value.1));
    }
  }

  /** The decode loop fails only with one of those two panics. */
  lemma {:induction false} ScanErrors(h: Header, b: Boundary, lngu: nat, initial: ScanState, codes: seq<nat>)
    requires OpenRun(initial.run, MaxV(h))
    ensures var r := Scan(h, b, lngu, initial, codes);
            r.Err? ==> r.error == Panicked(AssertionFailed) || r.error == Panicked(IndexOutOfBounds)
    decreases |codes|
  {
    if |codes| > 0 {
      var init := codes[..|codes| - 1];
      ScanErrors(h, b, lngu, initial, init);
      var st := Scan(h, b, lngu, initial, init);
      if st.Ok? && codes[|codes| - 1] <= MaxV(h) && st.value.run != [] {
        ProcessSetErrors(h, b, lngu, st.value.walk, st.value.run);
      }
    }
  }

  /** A section 7 cut short never converts: it stops with Truncated, or
      earlier with a panic on the codes that are present. */
  lemma TruncatedSection7Fails(data: seq<byte>, pos: nat, h: Header, b: Boundary, p: Payload)
    requires PayloadAt(data, pos, h.section5) == Ok(p) && |data| < p.start + p.count
    ensures var r := ConvertSpec(data, pos, h, b);
            && r.Err?
            && (r.error == Truncated || r.error == Panicked(AssertionFailed) || r.error == Panicked(IndexOutOfBounds))
  {
    ScanErrors(h, b, p.lngu, Initial(h.section3), data[p.start..]);
  }

  // ---------------------------------------------------------------------
  // The converter object.

  class Grib2Csv {
    /** The file, positioned at section 7 once the header has been read. */
    const reader: Reader
    const section3: Section3
    const section5: Section5

    constructor (reader: Reader, section3: Section3, section5: Section5)
      ensures this.reader == reader && this.section3 == section3 && this.section5 == section5
    {
      this.reader := reader;
      this.section3 := section3;
      this.section5 := section5;
    }

    /** Grib2Csv::new over the bytes of the file: read sections 0, 1, 3, 4
        and 5, compare the point counts, read section 6. */
    static method New(data: seq<byte>) returns (r: Result<Grib2Csv>)
      ensures r.Ok? <==> OpenSpec(data).Ok?
      ensures r.Err? ==> r.error == OpenSpec(data).error
      ensures r.Ok? ==> && fresh(r.value) && fresh(r.value.reader)
                        && r.value.reader.data == data
                        && r.value.reader.pos == OpenSpec(data).value.next
                        && Header(r.value.section3, r.value.section5) == OpenSpec(data).value.value
    {
      var reader := new Reader(data);
      var _ :- ReadSection0(reader);
      var _ :- ReadSection1(reader);
      var section3 :- ReadSection3(reader);
      var _ :- ReadSection4(reader);
      var section5 :- ReadSection5(reader);
      if section3.numberOfPoints != section5.numberOfPoints {
        return Err(PointCountMismatch(section3.numberOfPoints, section5.numberOfPoints));
      }
      var _ :- ReadSection6(reader);
      var converter := new Grib2Csv(reader, section3, section5);
      r := Ok(converter);
    }

    /** output_values: for a level value, `count` points are visited one step
        at a time and those inside the boundary are written; a run of missing
        values only moves the cursor, by the corrected skip `MoveLattice`. */
    method OutputValues(level: nat, count: nat, cursor: Cursor, boundary: Boundary)
      returns (r: Result<(Cursor, seq<Row>)>)
      ensures r == OutputValuesSpec(section3, boundary, section5.levelValues, level, count, cursor)
    {
      var table := section5.levelValues;
      if 0 < level {
        var c := cursor;
        var rows: seq<Row> := [];
        for i := 0 to count
          invariant c == Steps(section3, cursor, i)
          invariant Raster(section3, boundary, table, cursor, Repeat(level, i)) == Ok(rows)
        {
          ghost var before := rows;
          ghost var more: seq<Row> := [];
          if Contains(boundary, c.longitude, c.latitude) {
            if |table| <= level - 1 {
              RasterRepeatFails(section3, boundary, table, cursor, level, i, count);
              return Err(Panicked(IndexOutOfBounds));
            }
            more := [Row(c.longitude, c.latitude, table[level - 1])];
            rows := rows + [Row(c.longitude, c.latitude, table[level - 1])];
          }
          assert rows == before + more;
          RasterRepeatStep(section3, boundary, table, cursor, level, i, before, more);
          var longitude := c.longitude + section3.longitudeIncrement;
          if section3.easternmost < longitude {
            c := Cursor(section3.westernmost, c.latitude - section3.latitudeIncrement);
          } else {
            c := Cursor(longitude, c.latitude);
          }
        }
        r := Ok((c, rows));
      } else {
        r := Ok((MoveLattice(section3, cursor, count), []));
      }
    }

    /** The expansion and output of one completed set. */
    method ProcessRun(run: seq<nat>, lngu: nat, walk: Walk, boundary: Boundary) returns (r: Result<Walk>)
      requires IsSet(run, section5.maxLevelAtFile)
      ensures r == ProcessSet(Header(section3, section5), boundary, lngu, walk, run)
    {
      var set_ :- ExpandRunLength(run, section5.maxLevelAtFile, lngu);
      var numberOfRead := walk.read + set_.1;
      var out :- OutputValues(set_.0, set_.1, walk.cursor, boundary);
      r := Ok(Walk(out.0, numberOfRead, walk.rows + out.1));
    }

    /** The start of section 7, up to the first code: the length, the
        section number and LNGU from section 5. */
    method ReadSection7Start() returns (r: Result<Payload>)
      modifies reader
      ensures r == PayloadAt(reader.data, old(reader.pos), section5)
      ensures r.Ok? ==> reader.pos == r.value.start
    {
      var sectionBytes :- ReadU32(reader);
      var sectionNumber :- ReadU8(reader);
      if sectionNumber != 7 {
        return Err(SectionNumberMismatch(7, sectionNumber));
      }
      var lngu :- Lngu(section5.bitsPerData, section5.maxLevelAtFile);
      if sectionBytes < 5 {
        return Err(Panicked(SubtractionUnderflow));
      }
      r := Ok(Payload(lngu, reader.pos, sectionBytes - 5));
    }

    /** The decode loop: one code per iteration; a level value closes the
        accumulated set, which is expanded and written. */
    method ScanCodes(p: Payload, boundary: Boundary) returns (r: Result<ScanState>)
      requires reader.pos == p.start <= |reader.data|
      modifies reader
      ensures r == ScanPayload(reader.data, Header(section3, section5), boundary, p)
      ensures r.Ok? ==> reader.pos == p.start + p.count
    {
      ghost var h := Header(section3, section5);
      ghost var data := reader.data;
      var maxv := section5.maxLevelAtFile;
      var runLength: seq<nat> := [];
      var walk := Walk(Cursor(section3.westernmost, section3.northernmost), 0, []);
      for i := 0 to p.count
        invariant reader.pos == p.start + i <= |data|
        invariant Scan(h, boundary, p.lngu, Initial(section3), data[p.start..p.start + i]) == Ok(ScanState(runLength, walk))
      {
        if reader.pos == |data| {
          ScanTruncatedAt(data, h, boundary, p, i);
        }
        var value :- ReadU8(reader);
        ScanCodesStep(data, h, boundary, p, i, ScanState(runLength, walk));
        if value <= maxv && runLength != [] {
          walk :- ProcessRun(runLength, p.lngu, walk, boundary);
          runLength := [];
        }
        assert [] + [value] == [value];
        runLength := runLength + [value];
      }
      ScanPayloadComplete(data, h, boundary, p);
      r := Ok(ScanState(runLength, walk));
    }

    /** Grib2Csv::convert from the reader's position: the rows of the CSV
        output, or the error that stops the conversion. */
    method Convert(boundary: Boundary) returns (r: Result<seq<Row>>)
      modifies reader
      ensures r == ConvertSpec(reader.data, old(reader.pos), Header(section3, section5), boundary)
    {
      var p :- ReadSection7Start();
      var st :- ScanCodes(p, boundary);
      var walk := st.walk;
      if st.run != [] {
        walk :- ProcessRun(st.run, p.lngu, walk, boundary);
      }
      if walk.read != section3.numberOfPoints {
        return Err(ReadCountMismatch(section3.numberOfPoints, walk.read));
      }
      var _ :- ReadSection8(reader);
      r := Ok(walk.rows);
    }
  }

  /** One more code of section 7 is one more step of the loop. */
  lemma ScanPrefixStep(data: seq<byte>, h: Header, b: Boundary, p: Payload, i: nat)
    requires p.start + i < |data|
    ensures Scan(h, b, p.lngu, Initial(h.section3), data[p.start..p.start + i + 1]) ==
              (var st :- Scan(h, b, p.lngu, Initial(h.section3), data[p.start..p.start + i]);
               ScanCode(h, b, p.lngu, st, data[p.start + i]))
  {
    var codes: seq<nat> := data[p.start..p.start + i + 1];
    assert codes[..i] == data[p.start..p.start + i] && codes[i] == data[p.start + i];
  }

  /** One iteration of the decode loop: a level value after an open set
      processes that set, whose failure is the loop's result; any other code
      extends the open set. */
  lemma ScanCodesStep(data: seq<byte>, h: Header, b: Boundary, p: Payload, i: nat, st: ScanState)
    requires i < p.count && p.start + i < |data|
    requires Scan(h, b, p.lngu, Initial(h.section3), data[p.start..p.start + i]) == Ok(st)
    ensures var v := data[p.start + i];
            var next := Scan(h, b, p.lngu, Initial(h.section3), data[p.start..p.start + i + 1]);
            if v <= MaxV(h) && st.run != [] then
              var w := ProcessSet(h, b, p.lngu, st.walk, st.run);
              && (w.Err? ==> ScanPayload(data, h, b, p) == Err(w.error))
              && (w.Ok? ==> next == Ok(ScanState([v], w.value)))
            else next == Ok(ScanState(st.run + [v], st.walk))
  {
    ScanPrefixStep(data, h, b, p, i);
    if data[p.start + i] <= MaxV(h) && st.run != [] {
      ScanPayloadErrorAt(data, h, b, p, i + 1);
    } else if st.run == [] {
      assert st.run + [data[p.start + i]] == [data[p.start + i]];
    }
  }

  /** With every announced code present, the loop runs over exactly those codes. */
  lemma ScanPayloadComplete(data: seq<byte>, h: Header, b: Boundary, p: Payload)
    requires p.start + p.count <= |data|
    ensures ScanPayload(data, h, b, p) == Scan(h, b, p.lngu, Initial(h.section3), data[p.start..p.start + p.count])
  {
  }

  /** Where the data ends before the announced count, the loop's result is
      Truncated once the codes present have been scanned without error. */
  lemma ScanTruncatedAt(data: seq<byte>, h: Header, b: Boundary, p: Payload, i: nat)
    requires p.start + i == |data| && i < p.count
    requires Scan(h, b, p.lngu, Initial(h.section3), data[p.start..p.start + i]).Ok?
    ensures ScanPayload(data, h, b, p) == Err(Truncated)
  {
    assert data[p.start..] == data[p.start..p.start + i];
  }

  /** A failure after the first n codes is the loop's result. */
  lemma ScanPayloadErrorAt(data: seq<byte>, h: Header, b: Boundary, p: Payload, n: nat)
    requires n <= p.count && p.start + n <= |data|
    ensures Scan(h, b, p.lngu, Initial(h.section3), data[p.start..p.start + n]).Err? ==>
              ScanPayload(data, h, b, p) == Scan(h, b, p.lngu, Initial(h.section3), data[p.start..p.start + n])
  {
    var prefix: seq<nat> := data[p.start..p.start + n];
    if Scan(h, b, p.lngu, Initial(h.section3), prefix).Err? {
      if |data| < p.start + p.count {
        var codes: seq<nat> := data[p.start..];
        assert codes[..n] == prefix;
        ScanErrorSticks(h, b, p.lngu, Initial(h.section3), codes, n);
      } else {
        var codes: seq<nat> := data[p.start..p.start + p.count];
        assert codes[..n] == prefix;
        ScanErrorSticks(h, b, p.lngu, Initial(h.section3), codes, n);
      }
    }
  }
}
