/**
 * What all eight generators have in common: the grid they build for a
 * target is fixed by the target alone, it agrees cell by cell with the
 * random-access lookups, and it matches the worked values of the
 * generators' documentation and tests.
 */
module SpiralExamples {
  import opened Geometry
  import opened Spirals
  import SpiralGenerator
  import RandomAccessGenerator
  import RandomAccessGeneratorImproved
  import ShellGenerator
  import ShellGeneratorImproved
  import SparkGenerator
  import LightCycleGenerator
  import LightCycleGeneratorImproved

  /**
   * The grid for `spiralTo`, row by row: GetSpiralSize(spiralTo) rows of
   * that many cells, each holding its spiral index when that is at most
   * `spiralTo` and -1 otherwise.
   */
  function ExpectedRows(spiralTo: nat): (rows: seq<seq<int>>)
    ensures |rows| == Spiral.GetSpiralSize(spiralTo)
    ensures forall r | 0 <= r < |rows| :: |rows[r]| == |rows|
  {
    var width := Spiral.GetSpiralSize(spiralTo);
    seq(width, r =>
      seq(width, c =>
        var value := SpiralGenerator.GetValueAt(c - width / 2, r - width / 2);
        if value <= spiralTo then value else -1))
  }

  /** A complete grid of the right width holds exactly the expected rows. */
  lemma CompleteRows(spiral: Spiral)
    requires spiral.Valid() && spiral.spiralTo >= 0 && spiral.size == Spiral.GetSpiralSize(spiral.spiralTo)
    requires SpiralGenerator.Complete(spiral)
    ensures spiral.Rows() == ExpectedRows(spiral.spiralTo)
  {
    var rows := spiral.Rows();
    var expected := ExpectedRows(spiral.spiralTo);
    forall r | 0 <= r < |rows|
      ensures rows[r] == expected[r]
    {
      forall c | 0 <= c < |rows[r]|
        ensures rows[r][c] == expected[r][c]
      {
        assert rows[r][c] == spiral.numbers[r, c];
      }
    }
  }

  /**
   * Every generator builds the same grid for the same target: the one
   * determined by the target alone.
   */
  method GeneratorsAgree(spiralTo: nat) returns (grids: seq<seq<seq<int>>>)
    ensures |grids| == 8
    ensures forall i | 0 <= i < |grids| :: grids[i] == ExpectedRows(spiralTo)
  {
    var randomAccess := RandomAccessGenerator.Generate(spiralTo);
    CompleteRows(randomAccess);
    var spark := SparkGenerator.Generate(spiralTo);
    CompleteRows(spark);
    var lightCycle := LightCycleGenerator.Generate(spiralTo);
    CompleteRows(lightCycle);
    var lightCycleImproved := LightCycleGeneratorImproved.Generate(spiralTo);
    CompleteRows(lightCycleImproved);
    var shell := ShellGenerator.Generate(spiralTo);
    CompleteRows(shell);
    var shellImproved := ShellGeneratorImproved.Generate(spiralTo);
    CompleteRows(shellImproved);
    var randomAccessImproved := RandomAccessGeneratorImproved.Generate(spiralTo);
    CompleteRows(randomAccessImproved);
    var spiralGenerator := SpiralGenerator.Generate(spiralTo);
    CompleteRows(spiralGenerator);
    grids := [randomAccess.Rows(), spark.Rows(), lightCycle.Rows(), lightCycleImproved.Rows(),
              shell.Rows(), shellImproved.Rows(), randomAccessImproved.Rows(), spiralGenerator.Rows()];
  }

  /** The grid widths the tests of `Spiral` check: always odd, and just wide enough. */
  lemma SpiralSizeExamples()
    ensures Spiral.GetSpiralSize(0) == 1 && Spiral.GetSpiralSize(1) == 3
    ensures Spiral.GetSpiralSize(3) == 3 && Spiral.GetSpiralSize(8) == 3
    ensures Spiral.GetSpiralSize(9) == 5
  {
    FloorSqrtUnique(1, 1);
    FloorSqrtUnique(3, 1);
    FloorSqrtUnique(8, 2);
    FloorSqrtUnique(9, 3);
  }

  /** The widths of the generated grids the generator tests check: 9 cells for 1 and 4, 5×5 for 24. */
  lemma GeneratedSizeExamples()
    ensures Spiral.GetSpiralSize(1) == 3 && Spiral.GetSpiralSize(4) == 3
    ensures Spiral.GetSpiralSize(24) == 5
  {
    FloorSqrtUnique(1, 1);
    FloorSqrtUnique(4, 2);
    FloorSqrtUnique(24, 4);
  }

  /** The right side of the first ring: 1 just right of the origin, 2 below it. */
  lemma FirstRingRightValues()
    ensures SpiralGenerator.GetValueAt(1, 0) == 1 && SpiralGenerator.GetValueAt(1, 1) == 2
  {
    SpiralGenerator.ValueOnSides(1, 0);
    SpiralGenerator.ValueOnSides(1, 1);
  }

  /** The bottom side of the first ring, drawn right to left. */
  lemma FirstRingBottomValues()
    ensures SpiralGenerator.GetValueAt(0, 1) == 3 && SpiralGenerator.GetValueAt(-1, 1) == 4
  {
    SpiralGenerator.ValueOnSides(0, 1);
    SpiralGenerator.ValueOnSides(-1, 1);
  }

  /** The left side of the first ring, drawn bottom to top. */
  lemma FirstRingLeftValues()
    ensures SpiralGenerator.GetValueAt(-1, 0) == 5 && SpiralGenerator.GetValueAt(-1, -1) == 6
  {
    SpiralGenerator.ValueOnSides(-1, 0);
    SpiralGenerator.ValueOnSides(-1, -1);
  }

  /** The top side of the first ring, drawn left to right. */
  lemma FirstRingTopValues()
    ensures SpiralGenerator.GetValueAt(0, -1) == 7 && SpiralGenerator.GetValueAt(1, -1) == 8
  {
    SpiralGenerator.ValueOnSides(0, -1);
    SpiralGenerator.ValueOnSides(1, -1);
  }

  /**
   * The three-by-three grid for target 8: 0 in the middle, then 1 to 8
   * clockwise from the cell to its right.
   */
  lemma ThreeByThreeValues()
    ensures SpiralGenerator.GetValueAt(0, 0) == 0
    ensures SpiralGenerator.GetValueAt(1, 0) == 1 && SpiralGenerator.GetValueAt(1, 1) == 2
    ensures SpiralGenerator.GetValueAt(0, 1) == 3 && SpiralGenerator.GetValueAt(-1, 1) == 4
    ensures SpiralGenerator.GetValueAt(-1, 0) == 5 && SpiralGenerator.GetValueAt(-1, -1) == 6
    ensures SpiralGenerator.GetValueAt(0, -1) == 7 && SpiralGenerator.GetValueAt(1, -1) == 8
  {
    FirstRingRightValues();
    FirstRingBottomValues();
    FirstRingLeftValues();
    FirstRingTopValues();
  }

  /** The random-access lookups the generators' tests probe: 9 starts the second ring, 16 is its bottom-left corner. */
  lemma RandomAccessExamples()
    ensures RandomAccessGenerator.GetValueAt(2, -1) == 9 && RandomAccessGenerator.GetValueAt(-2, 2) == 16
    ensures RandomAccessGeneratorImproved.GetValueAt(2, -1) == 9
  {
    RandomAccessGenerator.SquaresOnDiagonalCorners(2);
  }

  /**
   * A finished grid read through relative coordinates agrees with every
   * random-access lookup: a cell holding -1 lies beyond the target, any other
   * cell holds the looked-up value.
   */
  lemma GridMatchesRandomAccess(spiral: Spiral, x: int, y: int)
    requires spiral.Valid() && SpiralGenerator.Complete(spiral) && spiral.InGrid(Point(x, y))
    ensures spiral.GetValueRelative(x, y) == -1 ==> RandomAccessGenerator.GetValueAt(x, y) > spiral.spiralTo
    ensures spiral.GetValueRelative(x, y) != -1 ==> RandomAccessGenerator.GetValueAt(x, y) == spiral.GetValueRelative(x, y)
    ensures RandomAccessGeneratorImproved.GetValueAt(x, y) == RandomAccessGenerator.GetValueAt(x, y)
    ensures SpiralGenerator.GetValueAt(x, y) == RandomAccessGenerator.GetValueAt(x, y)
  {
    assert spiral.CellPoint(y + spiral.origin.y, x + spiral.origin.x) == Point(x, y);
  }

  /** The grid for target 0 is the single cell 0. */
  lemma SingleCellGrid()
    ensures ExpectedRows(0) == [[0]]
  {
    var rows := ExpectedRows(0);
    assert Spiral.GetSpiralSize(0) == 1;
    assert rows[0][0] == SpiralGenerator.GetValueAt(0, 0) == 0;
    assert rows[0] == [0];
  }
}
