/** The grid walk.  Grid points are visited row by row from the north-west
    corner: each step moves one longitude increment east, and a step past the
    eastern edge returns to the western edge one latitude increment south.
    A run of missing values (level 0) moves the cursor across many points at
    once by a closed formula instead of stepping. */
module Lattice {
  import opened Errors
  import opened Sections

  /** The position of the walk, in 10^-6 degrees. */
  datatype Cursor = Cursor(longitude: int, latitude: int)

  /** One step of the walk (the cursor update after each point of a run). */
  function Step(g: Section3, c: Cursor): (r: Cursor)
    ensures r.longitude == c.longitude + g.longitudeIncrement || r.longitude == g.westernmost
  {
    var longitude := c.longitude + g.longitudeIncrement;
    if g.easternmost < longitude then Cursor(g.westernmost, c.latitude - g.latitudeIncrement)
    else Cursor(longitude, c.latitude)
  }

  /** `n` steps of the walk. */
  function Steps(g: Section3, c: Cursor, n: nat): (r: Cursor)
    ensures n == 0 ==> r == c
  {
    if n == 0 then c else Step(g, Steps(g, c, n - 1))
  }

  lemma {:induction false} StepsAdd(g: Section3, c: Cursor, m: nat, n: nat)
    ensures Steps(g, c, m + n) == Steps(g, Steps(g, c, m), n)
    decreases n
  {
    if n > 0 {
      StepsAdd(g, c, m, n - 1);
    }
  }

  /** A grid the walk can step through: a positive longitude increment and a
      western edge not east of the eastern one. */
  predicate ValidGrid(g: Section3)
  {
    0 < g.longitudeIncrement && g.westernmost <= g.easternmost
  }

  /** Grid points per row: every W + k*d that does not pass E. */
  function Columns(g: Section3): (r: nat)
    requires ValidGrid(g)
    ensures 1 <= r
  {
    (g.easternmost - g.westernmost) / g.longitudeIncrement + 1
  }

  /** The cursor is at a grid point of some row. */
  predicate OnLattice(g: Section3, c: Cursor)
    requires ValidGrid(g)
  {
    && g.westernmost <= c.longitude <= g.easternmost
    && (c.longitude - g.westernmost) % g.longitudeIncrement == 0
  }

  /** The column of a cursor on the lattice. */
  function Column(g: Section3, c: Cursor): (r: nat)
    requires ValidGrid(g) && OnLattice(g, c)
    ensures r < Columns(g)
    ensures c.longitude == g.westernmost + r * g.longitudeIncrement
  {
    var d := g.longitudeIncrement;
    var offset := c.longitude - g.westernmost;
    DivMod(offset, d);
    DivMonotone(offset, g.easternmost - g.westernmost, d);
    offset / d
  }

  lemma StepKeepsOnLattice(g: Section3, c: Cursor)
    requires ValidGrid(g) && OnLattice(g, c)
    ensures OnLattice(g, Step(g, c))
  {
    var d := g.longitudeIncrement;
    if c.longitude + d <= g.easternmost {
      var k := Column(g, c);
      assert c.longitude + d - g.westernmost == (k + 1) * d;
      ModOfMultiple(k + 1, d);
    }
  }

  lemma {:induction false} StepsKeepOnLattice(g: Section3, c: Cursor, n: nat)
    requires ValidGrid(g) && OnLattice(g, c)
    ensures OnLattice(g, Steps(g, c, n))
    decreases n
  {
    if n > 0 {
      StepsKeepOnLattice(g, c, n - 1);
      StepKeepsOnLattice(g, Steps(g, c, n - 1));
    }
  }

  // ---------------------------------------------------------------------
  // The closed-form move, corrected.

  /** `count` steps computed at once: the cursor's position in the raster,
      plus count, split into row and column. */
  function SkipOnLattice(g: Section3, c: Cursor, count: nat): (r: Cursor)
    requires ValidGrid(g) && OnLattice(g, c)
  {
    var position := Column(g, c) + count;
    Cursor(g.westernmost + (position % Columns(g)) * g.longitudeIncrement,
           c.latitude - (position / Columns(g)) * g.latitudeIncrement)
  }

  lemma SkipOnLatticeStep(g: Section3, c: Cursor, n: nat)
    requires ValidGrid(g) && OnLattice(g, c)
    ensures SkipOnLattice(g, c, n + 1) == Step(g, SkipOnLattice(g, c, n))
  {
    DivMod(Column(g, c) + n, Columns(g));
    if (Column(g, c) + n) % Columns(g) + 1 < Columns(g) {
      SkipStepSameRow(g, c, n);
    } else {
      SkipStepWraps(g, c, n);
    }
  }

  /** Every column of a row lies between the edges, and one more would not. */
  lemma ColumnsFit(g: Section3)
    requires ValidGrid(g)
    ensures (Columns(g) - 1) * g.longitudeIncrement <= g.easternmost - g.westernmost
    ensures g.easternmost - g.westernmost < Columns(g) * g.longitudeIncrement
  {
    DivMod(g.easternmost - g.westernmost, g.longitudeIncrement);
    MulDistributes(g.longitudeIncrement, Columns(g) - 1, 1);
  }

  /** A step from a column short of the last stays in the row. */
  lemma SkipStepSameRow(g: Section3, c: Cursor, n: nat)
    requires ValidGrid(g) && OnLattice(g, c)
    requires (Column(g, c) + n) % Columns(g) + 1 < Columns(g)
    ensures SkipOnLattice(g, c, n + 1) == Step(g, SkipOnLattice(g, c, n))
  {
    var d := g.longitudeIncrement;
    var cols := Columns(g);
    var p := Column(g, c) + n;
    var col := p % cols;
    var row := p / cols;
    SkipOnLatticeByParts(g, c, n, row, col);
    DivMod(p, cols);
    DivModUnique(p + 1, cols, row, col + 1);
    SkipOnLatticeByParts(g, c, n + 1, row, col + 1);
    ColumnsFit(g);
    MulMonotone(d, col + 1, cols - 1);
    MulDistributes(d, col, 1);
  }

  /** A step from the last column wraps to the first column of the next row. */
  lemma SkipStepWraps(g: Section3, c: Cursor, n: nat)
    requires ValidGrid(g) && OnLattice(g, c)
    requires (Column(g, c) + n) % Columns(g) + 1 == Columns(g)
    ensures SkipOnLattice(g, c, n + 1) == Step(g, SkipOnLattice(g, c, n))
  {
    var d := g.longitudeIncrement;
    var cols := Columns(g);
    var p := Column(g, c) + n;
    var col := p % cols;
    var row := p / cols;
    SkipOnLatticeByParts(g, c, n, row, col);
    DivMod(p, cols);
    DivModUnique(p + 1, cols, row + 1, 0);
    SkipOnLatticeByParts(g, c, n + 1, row + 1, 0);
    ColumnsFit(g);
    MulDistributes(d, col, 1);
    MulDistributes(g.latitudeIncrement, row, 1);
  }

  /** The closed form is exactly `count` steps of the walk. */
  lemma {:induction false} SkipOnLatticeIsSteps(g: Section3, c: Cursor, count: nat)
    requires ValidGrid(g) && OnLattice(g, c)
    ensures SkipOnLattice(g, c, count) == Steps(g, c, count)
    decreases count
  {
    if count == 0 {
      var p := Column(g, c);
      DivModUnique(p, Columns(g), 0, p);
    } else {
      SkipOnLatticeIsSteps(g, c, count - 1);
      SkipOnLatticeStep(g, c, count - 1);
    }
  }

  /** move_lattice_for_missing_values as the rest of this model uses it: the
      closed form where the cursor is on a valid lattice, which always holds
      during a conversion, and stepping otherwise. */
  function MoveLattice(g: Section3, c: Cursor, count: nat): (r: Cursor)
    ensures r == Steps(g, c, count)
  {
    if ValidGrid(g) && OnLattice(g, c) then
      SkipOnLatticeIsSteps(g, c, count);
      SkipOnLattice(g, c, count)
    else
      Steps(g, c, count)
  }

  // ---------------------------------------------------------------------
  // The closed-form move as the source writes it.

  /** The source's formula: the row count is the longitude distance over the
      row width, and each row crossed takes back one increment, by a 64-bit
      unsigned subtraction.  Panics are those of a debug build. */
  function MoveLatticeAsWritten(c: Cursor, count: nat, longitudeIncrement: nat, latitudeIncrement: nat,
                                westernmost: nat, easternmost: nat): (r: Result<Cursor>)
    ensures r.Err? ==> r.error.Panicked?
  {
    if easternmost < westernmost then Err(Panicked(SubtractionUnderflow))
    else
      var width := easternmost - westernmost;
      var sum := longitudeIncrement * count;
      if width == 0 then Err(Panicked(DivisionByZero))
      else
        var times := sum / width;
        var latitude := c.latitude - latitudeIncrement * times;
        if sum % width < longitudeIncrement * times then Err(Panicked(SubtractionUnderflow))
        else
          var longitude := c.longitude + (sum % width - longitudeIncrement * times);
          if easternmost < longitude then
            if longitude - easternmost < longitudeIncrement then Err(Panicked(SubtractionUnderflow))
            else Ok(Cursor(westernmost + (longitude - easternmost - longitudeIncrement), latitude - latitudeIncrement))
          else Ok(Cursor(longitude, latitude))
  }

  function AsWritten(g: Section3, c: Cursor, count: nat): Result<Cursor>
  {
    MoveLatticeAsWritten(c, count, g.longitudeIncrement, g.latitudeIncrement, g.westernmost, g.easternmost)
  }

  /** The lattice conditions under which the source's formula is analysed. */
  predicate WholeRowLattice(g: Section3, c: Cursor)
  {
    && ValidGrid(g) && g.westernmost < g.easternmost
    && (g.easternmost - g.westernmost) % g.longitudeIncrement == 0
    && OnLattice(g, c)
  }

  /** Row width in increments. */
  function RowWidth(g: Section3): (m: nat)
    requires ValidGrid(g) && g.westernmost < g.easternmost
    requires (g.easternmost - g.westernmost) % g.longitudeIncrement == 0
    ensures 0 < m && g.easternmost - g.westernmost == m * g.longitudeIncrement
    ensures Columns(g) == m + 1
  {
    DivMod(g.easternmost - g.westernmost, g.longitudeIncrement);
    (g.easternmost - g.westernmost) / g.longitudeIncrement
  }

  /** The source's quotient and remainder, in increments. */
  lemma AsWrittenQuotient(g: Section3, count: nat)
    requires ValidGrid(g) && g.westernmost < g.easternmost
    requires (g.easternmost - g.westernmost) % g.longitudeIncrement == 0
    ensures var d := g.longitudeIncrement;
            var m := RowWidth(g);
            var w := g.easternmost - g.westernmost;
            && (d * count) / w == count / m
            && (d * count) % w == d * (count % m)
            && (d * (count / m) <= d * (count % m) <==> count / m <= count % m)
  {
    var d := g.longitudeIncrement;
    var m := RowWidth(g);
    ScaledDivMod(d, count, m);
    assert d * m == g.easternmost - g.westernmost;
    MulMonotoneIff(d, count / m, count % m);
  }

  /** Where the source's formula stays in the row it computes. */
  lemma AsWrittenSameRow(g: Section3, c: Cursor, count: nat)
    requires WholeRowLattice(g, c)
    requires count / RowWidth(g) <= count % RowWidth(g)
    requires Column(g, c) + count % RowWidth(g) - count / RowWidth(g) <= RowWidth(g)
    ensures AsWritten(g, c, count) == Ok(SkipOnLattice(g, c, count))
  {
    SameRowSkip(g, c, count);
    SameRowAsWritten(g, c, count);
  }

  /** Without wrapping, the closed form lands q rows on, q being the
      source's row count. */
  lemma SameRowSkip(g: Section3, c: Cursor, count: nat)
    requires WholeRowLattice(g, c)
    requires count / RowWidth(g) <= count % RowWidth(g)
    requires Column(g, c) + count % RowWidth(g) - count / RowWidth(g) <= RowWidth(g)
    ensures var m := RowWidth(g);
            var q := count / m;
            var col := Column(g, c) + count % m - q;
            SkipOnLattice(g, c, count) ==
              Cursor(g.westernmost + col * g.longitudeIncrement, c.latitude - q * g.latitudeIncrement)
  {
    var m := RowWidth(g);
    var q := count / m;
    var j := Column(g, c);
    var col := j + count % m - q;
    DivMod(count, m);
    assert j + count == col + q * (m + 1) by { MulDistributes(q, m, 1); }
    DivModUnique(j + count, m + 1, q, col);
    SkipOnLatticeByParts(g, c, count, q, col);
  }

  /** Without wrapping, the source's formula reaches the same column. */
  lemma SameRowAsWritten(g: Section3, c: Cursor, count: nat)
    requires WholeRowLattice(g, c)
    requires count / RowWidth(g) <= count % RowWidth(g)
    requires Column(g, c) + count % RowWidth(g) - count / RowWidth(g) <= RowWidth(g)
    ensures var m := RowWidth(g);
            var q := count / m;
            var col := Column(g, c) + count % m - q;
            AsWritten(g, c, count) ==
              Ok(Cursor(g.westernmost + col * g.longitudeIncrement, c.latitude - g.latitudeIncrement * q))
  {
    var d := g.longitudeIncrement;
    var m := RowWidth(g);
    var q := count / m;
    var rest := count % m;
    var j := Column(g, c);
    var col := j + rest - q;
    AsWrittenQuotient(g, count);
    AsWrittenByParts(g, c, count, q, d * rest);
    assert c.longitude + (d * rest - d * q) == g.westernmost + col * d by {
      MulDistributes3(d, j, rest, q);
    }
    MulMonotone(d, col, m);
  }

  /** Where the source's formula passes the eastern edge and wraps once more. */
  lemma AsWrittenNextRow(g: Section3, c: Cursor, count: nat)
    requires WholeRowLattice(g, c)
    requires count / RowWidth(g) <= count % RowWidth(g)
    requires RowWidth(g) < Column(g, c) + count % RowWidth(g) - count / RowWidth(g)
    ensures AsWritten(g, c, count) == Ok(SkipOnLattice(g, c, count))
  {
    NextRowSkip(g, c, count);
    NextRowAsWritten(g, c, count);
    MulDistributes(g.latitudeIncrement, count / RowWidth(g), 1);
  }

  /** In the wrapping case the closed form lands q + 1 rows on, q being the
      source's row count. */
  lemma NextRowSkip(g: Section3, c: Cursor, count: nat)
    requires WholeRowLattice(g, c)
    requires count / RowWidth(g) <= count % RowWidth(g)
    requires RowWidth(g) < Column(g, c) + count % RowWidth(g) - count / RowWidth(g)
    ensures var m := RowWidth(g);
            var q := count / m;
            var col := Column(g, c) + count % m - q - (m + 1);
            SkipOnLattice(g, c, count) ==
              Cursor(g.westernmost + col * g.longitudeIncrement, c.latitude - (q + 1) * g.latitudeIncrement)
  {
    var m := RowWidth(g);
    var q := count / m;
    NextRowPosition(g, c, count);
    SkipOnLatticeByParts(g, c, count, q + 1, Column(g, c) + count % m - q - (m + 1));
  }

  /** In the wrapping case the source's formula wraps to the same column and
      one row further south than its row count. */
  lemma NextRowAsWritten(g: Section3, c: Cursor, count: nat)
    requires WholeRowLattice(g, c)
    requires count / RowWidth(g) <= count % RowWidth(g)
    requires RowWidth(g) < Column(g, c) + count % RowWidth(g) - count / RowWidth(g)
    ensures var m := RowWidth(g);
            var q := count / m;
            var col := Column(g, c) + count % m - q - (m + 1);
            AsWritten(g, c, count) ==
              Ok(Cursor(g.westernmost + col * g.longitudeIncrement,
                        c.latitude - g.latitudeIncrement * q - g.latitudeIncrement))
  {
    var d := g.longitudeIncrement;
    var m := RowWidth(g);
    var q := count / m;
    AsWrittenQuotient(g, count);
    NextRowLongitude(g, c, count);
    AsWrittenWraps(g, c, count, q, d * (count % m), Column(g, c) + count % m - q - (m + 1));
  }

  /** The source's formula when its longitude lands `col` increments past
      one increment beyond the eastern edge. */
  lemma AsWrittenWraps(g: Section3, c: Cursor, count: nat, times: nat, remainder: nat, col: nat)
    requires g.westernmost < g.easternmost && 0 < g.longitudeIncrement
    requires (g.longitudeIncrement * count) / (g.easternmost - g.westernmost) == times
    requires (g.longitudeIncrement * count) % (g.easternmost - g.westernmost) == remainder
    requires g.longitudeIncrement * times <= remainder
    requires c.longitude + (remainder - g.longitudeIncrement * times)
             == g.easternmost + g.longitudeIncrement + col * g.longitudeIncrement
    ensures AsWritten(g, c, count) ==
              Ok(Cursor(g.westernmost + col * g.longitudeIncrement,
                        c.latitude - g.latitudeIncrement * times - g.latitudeIncrement))
  {
    AsWrittenByParts(g, c, count, times, remainder);
    MulMonotone(g.longitudeIncrement, 0, col);
  }

  /** The closed form once the raster position's row and column are known. */
  lemma SkipOnLatticeByParts(g: Section3, c: Cursor, count: nat, row: nat, col: nat)
    requires ValidGrid(g) && OnLattice(g, c)
    requires (Column(g, c) + count) / Columns(g) == row && (Column(g, c) + count) % Columns(g) == col
    ensures SkipOnLattice(g, c, count) ==
              Cursor(g.westernmost + col * g.longitudeIncrement, c.latitude - row * g.latitudeIncrement)
  {
  }

  /** The source's formula once its quotient and remainder are known. */
  lemma AsWrittenByParts(g: Section3, c: Cursor, count: nat, times: nat, remainder: nat)
    requires g.westernmost < g.easternmost
    requires (g.longitudeIncrement * count) / (g.easternmost - g.westernmost) == times
    requires (g.longitudeIncrement * count) % (g.easternmost - g.westernmost) == remainder
    requires g.longitudeIncrement * times <= remainder
    ensures var d := g.longitudeIncrement;
            var longitude := c.longitude + (remainder - d * times);
            var latitude := c.latitude - g.latitudeIncrement * times;
            AsWritten(g, c, count) ==
              if g.easternmost < longitude then
                if longitude - g.easternmost < d then Err(Panicked(SubtractionUnderflow))
                else Ok(Cursor(g.westernmost + (longitude - g.easternmost - d), latitude - g.latitudeIncrement))
              else Ok(Cursor(longitude, latitude))
  {
  }

  /** In the wrapping case the raster position lands q + 1 rows on. */
  lemma NextRowPosition(g: Section3, c: Cursor, count: nat)
    requires WholeRowLattice(g, c)
    requires count / RowWidth(g) <= count % RowWidth(g)
    requires RowWidth(g) < Column(g, c) + count % RowWidth(g) - count / RowWidth(g)
    ensures var m := RowWidth(g);
            var col := Column(g, c) + count % m - count / m - (m + 1);
            (Column(g, c) + count) / Columns(g) == count / m + 1 && (Column(g, c) + count) % Columns(g) == col
  {
    var m := RowWidth(g);
    var q := count / m;
    var j := Column(g, c);
    var col := j + count % m - q - (m + 1);
    DivMod(count, m);
    assert j + count == col + (q + 1) * (m + 1) by { MulDistributes(q, m, 1); MulDistributes(m + 1, q, 1); }
    DivModUnique(j + count, m + 1, q + 1, col);
  }

  /** In the wrapping case the source's longitude passes the eastern edge by
      one increment more than the column reached in the next row. */
  lemma NextRowLongitude(g: Section3, c: Cursor, count: nat)
    requires WholeRowLattice(g, c)
    requires count / RowWidth(g) <= count % RowWidth(g)
    requires RowWidth(g) < Column(g, c) + count % RowWidth(g) - count / RowWidth(g)
    ensures var d := g.longitudeIncrement;
            var m := RowWidth(g);
            var q := count / m;
            var rest := count % m;
            var col := Column(g, c) + rest - q - (m + 1);
            c.longitude + (d * rest - d * q) == g.easternmost + d + col * d
  {
    var d := g.longitudeIncrement;
    var m := RowWidth(g);
    var q := count / m;
    var rest := count % m;
    var j := Column(g, c);
    var col := j + rest - q - (m + 1);
    MulDistributes3(d, j, rest, q);
    MulDistributes(d, col, m + 1);
    MulDistributes(d, m, 1);
  }

  /** On a lattice whose width is a whole number of increments, the source's
      formula is right exactly when it does not underflow, and it underflows
      exactly when the run crosses more rows (count / m) than it has points
      left over (count % m), m being the row width in increments. */
  lemma AsWrittenAgreesUnlessUnderflow(g: Section3, c: Cursor, count: nat)
    requires WholeRowLattice(g, c)
    ensures var m := RowWidth(g);
            var r := AsWritten(g, c, count);
            && (r.Ok? <==> count / m <= count % m)
            && (r.Err? ==> r.error == Panicked(SubtractionUnderflow))
            && (r.Ok? ==> r.value == Steps(g, c, count))
  {
    var m := RowWidth(g);
    AsWrittenQuotient(g, count);
    if count / m <= count % m {
      SkipOnLatticeIsSteps(g, c, count);
      if Column(g, c) + count % m - count / m <= m {
        AsWrittenSameRow(g, c, count);
      } else {
        AsWrittenNextRow(g, c, count);
      }
    }
  }

  /** A run of missing values exactly one row wide, starting at the western
      edge, drives the source's 64-bit subtraction below zero, where walking
      the grid lands on the eastern edge of the same row. */
  lemma FullRowSkipUnderflows(g: Section3, latitude: int)
    requires ValidGrid(g) && g.westernmost < g.easternmost
    requires (g.easternmost - g.westernmost) % g.longitudeIncrement == 0
    ensures var m := RowWidth(g);
            var c := Cursor(g.westernmost, latitude);
            && AsWritten(g, c, m) == Err(Panicked(SubtractionUnderflow))
            && MoveLattice(g, c, m) == Cursor(g.easternmost, latitude)
  {
    var d := g.longitudeIncrement;
    var m := RowWidth(g);
    var c := Cursor(g.westernmost, latitude);
    assert OnLattice(g, c);
    AsWrittenAgreesUnlessUnderflow(g, c, m);
    DivModUnique(m, m, 1, 0);
    assert Column(g, c) == 0;
    DivModUnique(m, m + 1, 0, m);
    assert SkipOnLattice(g, c, m) == Cursor(g.westernmost + m * d, latitude);
  }

  /** The test grid: western edge 130 degrees, eastern edge 150 degrees,
      1-degree increments. */
  const TEST_GRID: Section3 := Section3(0, 40000000, 130000000, 20000000, 150000000, 1000000, 1000000)

  /** The unit tests of move_lattice_for_missing_values, on the source's formula ... */
  lemma AsWrittenExample1()
    ensures AsWritten(TEST_GRID, Cursor(135000000, 40000000), 10) == Ok(Cursor(145000000, 40000000))
  {
  }

  lemma AsWrittenExample2()
    ensures AsWritten(TEST_GRID, Cursor(140000000, 40000000), 10) == Ok(Cursor(150000000, 40000000))
  {
  }

  lemma AsWrittenExample3()
    ensures AsWritten(TEST_GRID, Cursor(140000000, 40000000), 11) == Ok(Cursor(130000000, 39000000))
  {
  }

  lemma AsWrittenExample4()
    ensures AsWritten(TEST_GRID, Cursor(145000000, 40000000), 50) == Ok(Cursor(132000000, 37000000))
  {
  }

  // ... and on the corrected closed form, which gives the same cursors
  // (one lemma per test keeps each proof small).

  lemma MoveLatticeExample1()
    ensures OnLattice(TEST_GRID, Cursor(135000000, 40000000)) && Column(TEST_GRID, Cursor(135000000, 40000000)) == 5
    ensures SkipOnLattice(TEST_GRID, Cursor(135000000, 40000000), 10) == Cursor(145000000, 40000000)
  {
    TestGridExample(Cursor(135000000, 40000000), 5, 10, 0, 15);
  }

  lemma MoveLatticeExample2()
    ensures OnLattice(TEST_GRID, Cursor(140000000, 40000000)) && Column(TEST_GRID, Cursor(140000000, 40000000)) == 10
    ensures SkipOnLattice(TEST_GRID, Cursor(140000000, 40000000), 10) == Cursor(150000000, 40000000)
  {
    TestGridExample(Cursor(140000000, 40000000), 10, 10, 0, 20);
  }

  lemma MoveLatticeExample3()
    ensures OnLattice(TEST_GRID, Cursor(140000000, 40000000)) && Column(TEST_GRID, Cursor(140000000, 40000000)) == 10
    ensures SkipOnLattice(TEST_GRID, Cursor(140000000, 40000000), 11) == Cursor(130000000, 39000000)
  {
    TestGridExample(Cursor(140000000, 40000000), 10, 11, 1, 0);
  }

  lemma MoveLatticeExample4()
    ensures OnLattice(TEST_GRID, Cursor(145000000, 40000000)) && Column(TEST_GRID, Cursor(145000000, 40000000)) == 15
    ensures SkipOnLattice(TEST_GRID, Cursor(145000000, 40000000), 50) == Cursor(132000000, 37000000)
  {
    TestGridExample(Cursor(145000000, 40000000), 15, 50, 3, 2);
  }

  /** The closed form on the test grid (21 columns of 1 degree), for a
      cursor in column k whose raster position after `count` points is row
      `row`, column `col`. */
  lemma TestGridExample(c: Cursor, k: nat, count: nat, row: nat, col: nat)
    requires c.longitude == 130000000 + k * 1000000 && k <= 20
    requires k + count == row * 21 + col && col < 21
    ensures OnLattice(TEST_GRID, c) && Column(TEST_GRID, c) == k
    ensures SkipOnLattice(TEST_GRID, c, count) ==
              Cursor(130000000 + col * 1000000, c.latitude - row * 1000000)
  {
    var g := TEST_GRID;
    DivModUnique(20000000, 1000000, 20, 0);
    assert Columns(g) == 21;
    ColumnOf(g, c, k);
    DivModUnique(k + count, 21, row, col);
    SkipOnLatticeByParts(g, c, count, row, col);
  }

  /** A cursor k increments east of the western edge, within the row, is on
      the lattice in column k. */
  lemma ColumnOf(g: Section3, c: Cursor, k: nat)
    requires ValidGrid(g) && c.longitude == g.westernmost + k * g.longitudeIncrement
    requires c.longitude <= g.easternmost
    ensures OnLattice(g, c) && Column(g, c) == k
  {
    DivModUnique(k * g.longitudeIncrement, g.longitudeIncrement, k, 0);
  }

  /** The same grid and a one-row run from the western edge: the source
      underflows where the walk reaches (150, 40). */
  lemma MoveLatticeCounterexample()
    ensures AsWritten(TEST_GRID, Cursor(130000000, 40000000), 20) == Err(Panicked(SubtractionUnderflow))
    ensures MoveLattice(TEST_GRID, Cursor(130000000, 40000000), 20) == Cursor(150000000, 40000000)
  {
    FullRowSkipUnderflows(TEST_GRID, 40000000);
    assert RowWidth(TEST_GRID) == 20;
  }

  // ---------------------------------------------------------------------
  // Arithmetic facts (Dafny's / and % on these non-negative operands are
  // the source's unsigned ones).

  lemma DivMod(n: int, d: int)
    requires 0 <= n && 0 < d
    ensures n == (n / d) * d + n % d && 0 <= n % d < d && 0 <= n / d
  {
  }

  lemma DivModUnique(n: int, d: int, q: int, r: int)
    requires 0 < d && 0 <= r < d && n == q * d + r
    ensures n / d == q && n % d == r
  {
    var q' := n / d;
    var r' := n % d;
    assert n == q' * d + r';
    assert (q - q') * d == r' - r by { MulDistributes(d, q, -q'); }
    MulBounds(q - q', d);
  }

  lemma MulBounds(k: int, d: int)
    requires 0 < d
    ensures 1 <= k ==> d <= k * d
    ensures k <= -1 ==> k * d <= -d
  {
    if 1 <= k {
      MulMonotone(d, 1, k);
    }
    if k <= -1 {
      MulMonotone(d, k, -1);
    }
  }

  lemma ModOfMultiple(k: nat, d: int)
    requires 0 < d
    ensures (k * d) % d == 0
  {
    DivModUnique(k * d, d, k, 0);
  }

  lemma DivMonotone(a: int, b: int, d: int)
    requires 0 <= a <= b && 0 < d
    ensures a / d <= b / d
  {
    DivMod(a, d);
    DivMod(b, d);
    assert (a / d - b / d) * d == a - a % d - (b - b % d) by { MulDistributes(d, a / d, -(b / d)); }
    MulBounds(a / d - b / d, d);
  }

  lemma ScaledDivMod(d: nat, n: nat, m: nat)
    requires 0 < d && 0 < m
    ensures (d * n) / (d * m) == n / m && (d * n) % (d * m) == d * (n % m)
  {
    DivMod(n, m);
    var q := n / m;
    var r := n % m;
    assert d * n == q * (d * m) + d * r by { MulDistributes(d, q * m, r); }
    MulStrictMonotone(d, r, m);
    DivModUnique(d * n, d * m, q, d * r);
  }

  lemma MulMonotone(a: int, b: int, c: int)
    requires 0 <= a && b <= c
    ensures a * b <= a * c && b * a <= c * a
  {
  }

  lemma MulStrictMonotone(a: int, b: int, c: int)
    requires 0 < a && b < c
    ensures a * b < a * c
  {
  }

  lemma MulMonotoneIff(a: int, b: int, c: int)
    requires 0 < a
    ensures a * b <= a * c <==> b <= c
  {
    if c < b { MulStrictMonotone(a, c, b); }
  }

  lemma MulDistributes(a: int, b: int, c: int)
    ensures a * (b + c) == a * b + a * c && (b + c) * a == b * a + c * a
  {
  }

  lemma MulDistributes3(a: int, b: int, c: int, e: int)
    ensures (b + c - e) * a == b * a + a * c - a * e
  {
  }
}
