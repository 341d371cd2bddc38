/**
 * The first random-access generator.  It locates a cell by four regions of
 * the plane (quarter-planes cut along the diagonals) rather than by shell,
 * and measures from two square-valued corners: (2x-1)² one cell below the
 * top-right corner of shell x, and (2y)² at the bottom-left corner of shell
 * y.  A point claimed by no region would give -1.
 */
module RandomAccessGenerator {
  import opened Geometry
  import opened Spirals
  import SpiralGenerator
  import RandomAccessGeneratorImproved

  method Generate(spiralTo: int) returns (spiral: Spiral)
    requires spiralTo >= 0
    ensures fresh(spiral) && fresh(spiral.numbers) && spiral.Valid()
    ensures spiral.size == Spiral.GetSpiralSize(spiralTo) && spiral.spiralTo == spiralTo
    ensures SpiralGenerator.Complete(spiral)
  {
    spiral := new Spiral(spiralTo);
    PopulateSpiral(spiral);
  }

  /** Writes every cell, column by column, with the value `GetValueAt` gives it. */
  method PopulateSpiral(spiral: Spiral)
    requires spiral.Valid() && spiral.size % 2 == 1
    modifies spiral.numbers
    ensures SpiralGenerator.Complete(spiral)
  {
    var offset := spiral.origin.x;
    var x := -offset;
    while x <= offset
      invariant -offset <= x <= offset + 1
      invariant forall r, c | 0 <= r < spiral.numbers.Length0 && 0 <= c < spiral.numbers.Length1 ::
                  spiral.numbers[r, c] ==
                    if spiral.CellPoint(r, c).x < x then SpiralGenerator.Final(spiral, spiral.CellPoint(r, c))
                    else old(spiral.numbers[r, c])
    {
      var y := -offset;
      while y <= offset
        invariant -offset <= y <= offset + 1
        invariant forall r, c | 0 <= r < spiral.numbers.Length0 && 0 <= c < spiral.numbers.Length1 ::
                    spiral.numbers[r, c] ==
                      var q := spiral.CellPoint(r, c);
                      if q.x < x || (q.x == x && q.y < y) then SpiralGenerator.Final(spiral, q)
                      else old(spiral.numbers[r, c])
      {
        var valueAtCoordinates := GetValueAt(x, y);
        spiral.SetValueRelative(x, y, valueAtCoordinates);
        forall r, c | 0 <= r < spiral.numbers.Length0 && 0 <= c < spiral.numbers.Length1
          ensures spiral.numbers[r, c] ==
                    var q := spiral.CellPoint(r, c);
                    if q.x < x || (q.x == x && q.y <= y) then SpiralGenerator.Final(spiral, q)
                    else old(spiral.numbers[r, c])
        {
          CellPointIs(spiral, r, c, Point(x, y));
        }
        y := y + 1;
      }
      x := x + 1;
    }
  }

  /**
   * The value at (x, y).  The regions cover the whole plane but the origin,
   * so the fallback -1 is never returned and the result is the same index
   * `SpiralGenerator.GetValueAt` gives.
   */
  function GetValueAt(x: int, y: int): (value: int)
    ensures value == SpiralGenerator.GetValueAt(x, y)
  {
    if x == 0 && y == 0 then 0
    else
    RegionValues(x, y);
    if IsOnRightSide(x, y) then
      var topRightValue := (x * 2 - 1) * (x * 2 - 1);
      var topRightValueYCoord := -(x - 1);
      var yDistanceFromTopRight := y - topRightValueYCoord;
      topRightValue + yDistanceFromTopRight
    else if IsOnBottom(x, y) then
      var leftBottomValue := (y * 2) * (y * 2);
      var leftBottomXCoord := -y;
      var xDistanceFromLeftBottom := x - leftBottomXCoord;
      leftBottomValue - xDistanceFromLeftBottom
    else if IsOnLeftSide(x, y) then
      var leftBottomValue := (x * 2) * (x * 2);
      var leftBottomYCoord := -x;
      var yDistanceFromLeftBottom := leftBottomYCoord - y;
      leftBottomValue + yDistanceFromLeftBottom
    else if IsOnTop(x, y) then
      var topRightValueOfNextShell := (y * 2 - 1) * (y * 2 - 1) - 1;
      var xCoordOfTopRightValueOfNextShell := -y;
      var xDistanceFromTopRightValueOfNextShell := xCoordOfTopRightValueOfNextShell - x;
      topRightValueOfNextShell - xDistanceFromTopRightValueOfNextShell
    else -1
  }

  predicate IsOnRightSide(x: int, y: int) { x > 0 && y >= -(x - 1) && y <= x }

  predicate IsOnBottom(x: int, y: int) { y > 0 && x < y && x >= -y }

  predicate IsOnLeftSide(x: int, y: int) { x < 0 && y >= x && y < -x }

  predicate IsOnTop(x: int, y: int) { y < 0 && x > y && x <= -y }

  /** Every point but the origin lies in exactly one of the four regions. */
  lemma RegionsPartitionPlane(x: int, y: int)
    ensures (x == 0 && y == 0) <==> !(IsOnRightSide(x, y) || IsOnBottom(x, y) || IsOnLeftSide(x, y) || IsOnTop(x, y))
    ensures !(IsOnRightSide(x, y) && IsOnBottom(x, y)) && !(IsOnRightSide(x, y) && IsOnLeftSide(x, y))
    ensures !(IsOnRightSide(x, y) && IsOnTop(x, y)) && !(IsOnBottom(x, y) && IsOnLeftSide(x, y))
    ensures !(IsOnBottom(x, y) && IsOnTop(x, y)) && !(IsOnLeftSide(x, y) && IsOnTop(x, y))
  {
  }

  /**
   * Each region is the matching side of the point's shell, under the same
   * corner convention as `SpiralGenerator.Shell`.
   */
  lemma RegionsAreShellSides(x: int, y: int)
    requires x != 0 || y != 0
    ensures var shell := SpiralGenerator.Shell(ShellIndexOf(Point(x, y)));
            && IsOnRightSide(x, y) == shell.IsOnRight(x, y)
            && IsOnBottom(x, y) == shell.IsOnBottom(x, y)
            && IsOnLeftSide(x, y) == shell.IsOnLeft(x, y)
            && IsOnTop(x, y) == shell.IsOnTop(x, y)
  {
  }

  /** On each region the formula of `GetValueAt` is the spiral index of the point. */
  lemma RegionValues(x: int, y: int)
    requires x != 0 || y != 0
    ensures IsOnRightSide(x, y) ==> (x * 2 - 1) * (x * 2 - 1) + (y + (x - 1)) == SpiralGenerator.GetValueAt(x, y)
    ensures IsOnBottom(x, y) ==> (y * 2) * (y * 2) - (x + y) == SpiralGenerator.GetValueAt(x, y)
    ensures IsOnLeftSide(x, y) ==> (x * 2) * (x * 2) + (-x - y) == SpiralGenerator.GetValueAt(x, y)
    ensures IsOnTop(x, y) ==> (y * 2 - 1) * (y * 2 - 1) - 1 - (-y - x) == SpiralGenerator.GetValueAt(x, y)
  {
    RegionsAreShellSides(x, y);
    SpiralGenerator.ValueOnSides(x, y);
    var k: int := ShellIndexOf(Point(x, y));
    if IsOnLeftSide(x, y) {
      assert k == -x;
      assert (x * 2) * (x * 2) == 4 * k * k;
    } else if IsOnTop(x, y) {
      assert k == -y;
      assert (y * 2 - 1) * (y * 2 - 1) == (2 * k + 1) * (2 * k + 1);
    }
  }

  /**
   * The square numbers sit where the method's doc comment says: (2k-1)²
   * at (k, -k+1) and (2k)² at (-k, k); so 1 at (1,0), 4 at (-1,1), 9 at
   * (2,-1) and 16 at (-2,2).
   */
  lemma SquaresOnDiagonalCorners(k: int)
    requires k >= 1
    ensures GetValueAt(k, -k + 1) == (2 * k - 1) * (2 * k - 1)
    ensures GetValueAt(-k, k) == (2 * k) * (2 * k)
  {
  }

  /** The two random-access generators agree everywhere. */
  lemma AgreesWithImproved(x: int, y: int)
    ensures GetValueAt(x, y) == RandomAccessGeneratorImproved.GetValueAt(x, y)
  {
  }
}
