/** What the walk writes: one row per grid point that carries a level value
    (level > 0) and lies inside the boundary, in raster order.  Raster is the
    reference definition; output_values (one run of equal levels) is
    specified by OutputValuesSpec and shown to be a piece of the raster. */
module Walker {
  import opened Errors
  import opened Sections
  import opened Boundaries
  import opened Lattice
  import opened RunLength

  /** A written row: longitude and latitude in 10^-6 degrees and the
      representative value the level stands for. */
  datatype Row = Row(longitude: int, latitude: int, value: nat)

  /** The rows one grid point at `p` contributes: none for a missing value
      (level 0) or a point outside the boundary; otherwise the level value
      looked up in the table, whose absence is an index panic. */
  function PointRows(b: Boundary, table: seq<nat>, level: nat, p: Cursor): (r: Result<seq<Row>>)
    ensures r.Ok? <==> level == 0 || !Contains(b, p.longitude, p.latitude) || level <= |table|
    ensures r.Err? ==> r.error == Panicked(IndexOutOfBounds)
    ensures r.Ok? && 0 < level && Contains(b, p.longitude, p.latitude) ==>
              r.value == [Row(p.longitude, p.latitude, table[level - 1])]
    ensures r.Ok? && (level == 0 || !Contains(b, p.longitude, p.latitude)) ==> r.value == []
  {
    if level == 0 || !Contains(b, p.longitude, p.latitude) then Ok([])
    else if level - 1 < |table| then Ok([Row(p.longitude, p.latitude, table[level - 1])])
    else Err(Panicked(IndexOutOfBounds))
  }

  /** The rows of a whole raster: point i has level levels[i] and sits i
      steps after `start`.  The first point that panics decides the error. */
  function Raster(g: Section3, b: Boundary, table: seq<nat>, start: Cursor, levels: seq<nat>): Result<seq<Row>>
  {
    if |levels| == 0 then Ok([])
    else
      var rows :- Raster(g, b, table, start, levels[..|levels| - 1]);
      var more :- PointRows(b, table, levels[|levels| - 1], Steps(g, start, |levels| - 1));
      Ok(rows + more)
  }

  /** The raster succeeds exactly when every written point has its level in
      the table. */
  lemma {:induction false} RasterOk(g: Section3, b: Boundary, table: seq<nat>, start: Cursor, levels: seq<nat>)
    ensures Raster(g, b, table, start, levels).Ok? <==>
              forall i :: 0 <= i < |levels| && 0 < levels[i] && Contains(b, Steps(g, start, i).longitude, Steps(g, start, i).latitude)
                ==> levels[i] <= |table|
    ensures Raster(g, b, table, start, levels).Err? ==> Raster(g, b, table, start, levels).error == Panicked(IndexOutOfBounds)
    decreases |levels|
  {
    if |levels| > 0 {
      var init := levels[..|levels| - 1];
      RasterOk(g, b, table, start, init);
      assert forall i :: 0 <= i < |init| ==> init[i] == levels[i];
    }
  }

  /** Every row written lies inside the boundary and carries a value of the
      level table, and there are no more rows than grid points. */
  lemma {:induction false} RasterRowsInBoundary(g: Section3, b: Boundary, table: seq<nat>, start: Cursor, levels: seq<nat>)
    requires Raster(g, b, table, start, levels).Ok?
    ensures var rows := Raster(g, b, table, start, levels).value;
            && |rows| <= |levels|
            && forall k :: 0 <= k < |rows| ==> Contains(b, rows[k].longitude, rows[k].latitude) && rows[k].value in table
    decreases |levels|
  {
    if |levels| > 0 {
      RasterRowsInBoundary(g, b, table, start, levels[..|levels| - 1]);
    }
  }

  /** A raster of missing values writes nothing. */
  lemma {:induction false} RasterOfMissing(g: Section3, b: Boundary, table: seq<nat>, start: Cursor, count: nat)
    ensures var r := Raster(g, b, table, start, Repeat(0, count)); r.Ok? && r.value == []
    decreases count
  {
    if count > 0 {
      assert Repeat(0, count)[..count - 1] == Repeat(0, count - 1);
      RasterOfMissing(g, b, table, start, count - 1);
    }
  }

  /** Without a boundary and with every level in the table, the raster
      writes every grid point, in order. */
  lemma {:induction false} RasterUnbounded(g: Section3, table: seq<nat>, start: Cursor, levels: seq<nat>)
    requires forall i :: 0 <= i < |levels| ==> 0 < levels[i] <= |table|
    ensures var r := Raster(g, UNBOUNDED, table, start, levels);
            && r.Ok? && |r.value| == |levels|
            && forall i :: 0 <= i < |levels| ==>
                 r.value[i] == Row(Steps(g, start, i).longitude, Steps(g, start, i).latitude, table[levels[i] - 1])
    decreases |levels|
  {
    if |levels| > 0 {
      var init := levels[..|levels| - 1];
      RasterUnbounded(g, table, start, init);
    }
  }

  /** An error in a prefix of the raster is the error of the whole raster. */
  lemma {:induction false} RasterErrorSticks(g: Section3, b: Boundary, table: seq<nat>, start: Cursor, levels: seq<nat>, n: nat)
    requires n <= |levels| && Raster(g, b, table, start, levels[..n]).Err?
    ensures Raster(g, b, table, start, levels) == Raster(g, b, table, start, levels[..n])
    decreases |levels| - n
  {
    if n < |levels| {
      var init := levels[..|levels| - 1];
      assert init[..n] == levels[..n];
      RasterErrorSticks(g, b, table, start, init, n);
    } else {
      assert levels[..n] == levels;
    }
  }

  /** Rasters compose: the second part starts where the walk over the first
      part ends. */
  lemma {:induction false} RasterAppend(g: Section3, b: Boundary, table: seq<nat>, start: Cursor, first: seq<nat>, second: seq<nat>)
    ensures Raster(g, b, table, start, first + second) ==
              (var r1 :- Raster(g, b, table, start, first);
               var r2 :- Raster(g, b, table, Steps(g, start, |first|), second);
               Ok(r1 + r2))
    decreases |second|
  {
    if |second| == 0 {
      assert first + second == first;
      var r1 := Raster(g, b, table, start, first);
      if r1.Ok? {
        assert r1.value + [] == r1.value;
      }
    } else {
      var init := second[..|second| - 1];
      assert (first + second)[..|first + second| - 1] == first + init;
      RasterAppend(g, b, table, start, first, init);
      StepsAdd(g, start, |first|, |init|);
      assert (first + second)[|first + second| - 1] == second[|second| - 1];
      var mid := Steps(g, start, |first|);
      var r1 := Raster(g, b, table, start, first);
      var r2 := Raster(g, b, table, mid, init);
      var more := PointRows(b, table, second[|second| - 1], Steps(g, mid, |init|));
      if r1.Ok? && r2.Ok? && more.Ok? {
        assert (r1.value + r2.value) + more.value == r1.value + (r2.value + more.value);
      }
    }
  }

  /** One more point of a run: the raster grows by that point's rows. */
  lemma RasterRepeatStep(g: Section3, b: Boundary, table: seq<nat>, start: Cursor, level: nat, i: nat,
                         rows: seq<Row>, more: seq<Row>)
    requires Raster(g, b, table, start, Repeat(level, i)) == Ok(rows)
    requires PointRows(b, table, level, Steps(g, start, i)) == Ok(more)
    ensures Raster(g, b, table, start, Repeat(level, i + 1)) == Ok(rows + more)
  {
    RepeatPrefix(level, i, i + 1);
  }

  /** A point of a run whose level is missing from the table makes the
      raster of the whole run fail. */
  lemma RasterRepeatFails(g: Section3, b: Boundary, table: seq<nat>, start: Cursor, level: nat, i: nat, count: nat)
    requires i < count && Raster(g, b, table, start, Repeat(level, i)).Ok?
    requires PointRows(b, table, level, Steps(g, start, i)).Err?
    ensures Raster(g, b, table, start, Repeat(level, count)) == Err(Panicked(IndexOutOfBounds))
  {
    RasterRepeatFailsAt(g, b, table, start, level, i);
    RepeatPrefix(level, i + 1, count);
    RasterErrorSticks(g, b, table, start, Repeat(level, count), i + 1);
  }

  /** The raster of a run fails at the first point whose level is missing. */
  lemma RasterRepeatFailsAt(g: Section3, b: Boundary, table: seq<nat>, start: Cursor, level: nat, i: nat)
    requires Raster(g, b, table, start, Repeat(level, i)).Ok?
    requires PointRows(b, table, level, Steps(g, start, i)).Err?
    ensures Raster(g, b, table, start, Repeat(level, i + 1)) == Err(Panicked(IndexOutOfBounds))
  {
    RepeatPrefix(level, i, i + 1);
  }

  // ---------------------------------------------------------------------
  // output_values: one run of `count` points of the same level.

  /** A run with a level value steps point by point and writes each point
      inside the boundary; a missing-value run (level 0) writes nothing and
      moves the cursor at once, by the corrected skip `MoveLattice` rather than
      the source's formula (`MoveLatticeAsWritten`), so it never panics.  The
      new cursor never depends on the boundary. */
  function OutputValuesSpec(g: Section3, b: Boundary, table: seq<nat>, level: nat, count: nat, c: Cursor)
    : (r: Result<(Cursor, seq<Row>)>)
    ensures r.Ok? ==> r.value.0 == Steps(g, c, count)
    ensures level == 0 ==> r.Ok? && r.value.1 == []
  {
    if level == 0 then Ok((MoveLattice(g, c, count), []))
    else
      var rows :- Raster(g, b, table, c, Repeat(level, count));
      Ok((Steps(g, c, count), rows))
  }

  /** The run's rows are the raster of `count` copies of its level. */
  lemma OutputValuesIsRaster(g: Section3, b: Boundary, table: seq<nat>, level: nat, count: nat, c: Cursor)
    ensures OutputValuesSpec(g, b, table, level, count, c) ==
              (var rows :- Raster(g, b, table, c, Repeat(level, count)); Ok((Steps(g, c, count), rows)))
  {
    if level == 0 {
      RasterOfMissing(g, b, table, c, count);
    }
  }
}
