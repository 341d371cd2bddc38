/**
 * The second random-access generator: the value of a cell is found from
 * three landmarks of its shell (the start (2k-1)², the bottom-left corner
 * 4k² and the end (2k+1)²-1) and the cell's distance from the nearest
 * landmark along its side.  It uses the same corner convention as
 * `SpiralGenerator.Shell`.
 */
module RandomAccessGeneratorImproved {
  import opened Geometry
  import opened Spirals
  import SpiralGenerator
  import SpiralOrder

  method Generate(spiralTo: int) returns (spiral: Spiral)
    requires spiralTo >= 0
    ensures fresh(spiral) && fresh(spiral.numbers) && spiral.Valid()
    ensures spiral.size == Spiral.GetSpiralSize(spiralTo) && spiral.spiralTo == spiralTo
    ensures SpiralGenerator.Complete(spiral)
  {
    spiral := new Spiral(spiralTo);
    PopulateSpiral(spiral);
  }

  /** Writes every cell, column by column, with the value `GetValueAt` gives it. */
  method PopulateSpiral(spiral: Spiral)
    requires spiral.Valid() && spiral.size % 2 == 1
    modifies spiral.numbers
    ensures SpiralGenerator.Complete(spiral)
  {
    var offset := spiral.origin.x;
    var x := -offset;
    while x <= offset
      invariant -offset <= x <= offset + 1
      invariant forall r, c | 0 <= r < spiral.numbers.Length0 && 0 <= c < spiral.numbers.Length1 ::
                  spiral.numbers[r, c] ==
                    if spiral.CellPoint(r, c).x < x then SpiralGenerator.Final(spiral, spiral.CellPoint(r, c))
                    else old(spiral.numbers[r, c])
    {
      var y := -offset;
      while y <= offset
        invariant -offset <= y <= offset + 1
        invariant forall r, c | 0 <= r < spiral.numbers.Length0 && 0 <= c < spiral.numbers.Length1 ::
                    spiral.numbers[r, c] ==
                      var q := spiral.CellPoint(r, c);
                      if q.x < x || (q.x == x && q.y < y) then SpiralGenerator.Final(spiral, q)
                      else old(spiral.numbers[r, c])
      {
        var valueAtCoordinates := GetValueAt(x, y);
        spiral.SetValueRelative(x, y, valueAtCoordinates);
        forall r, c | 0 <= r < spiral.numbers.Length0 && 0 <= c < spiral.numbers.Length1
          ensures spiral.numbers[r, c] ==
                    var q := spiral.CellPoint(r, c);
                    if q.x < x || (q.x == x && q.y <= y) then SpiralGenerator.Final(spiral, q)
                    else old(spiral.numbers[r, c])
        {
          CellPointIs(spiral, r, c, Point(x, y));
        }
        y := y + 1;
      }
      x := x + 1;
    }
  }

  /** The value at (x, y); it is the same index `SpiralGenerator.GetValueAt` gives. */
  function GetValueAt(x: int, y: int): (value: int)
    ensures value == SpiralGenerator.GetValueAt(x, y)
  {
    if x == 0 && y == 0 then 0
    else
      var shellIndex := Max(Abs(x), Abs(y));
      SidesMatchShell(x, y, shellIndex);
      SpiralGenerator.ValueOnSides(x, y);
      if IsOnRightOfShell(x, y, shellIndex) then GetShellStart(shellIndex) + (y - GetShellStartYCoord(shellIndex))
      else if IsOnBottomOfShell(x, y, shellIndex) then GetShellMiddle(shellIndex) - (x - GetShellMiddleXCoord(shellIndex))
      else if IsOnLeftOfShell(x, y, shellIndex) then GetShellMiddle(shellIndex) + (GetShellMiddleYCoord(shellIndex) - y)
      else if IsOnTopOfShell(x, y, shellIndex) then GetShellEnd(shellIndex) - (GetShellEndXCoord(shellIndex) - x)
      else assert false; 0
  }

  function GetShellStart(shellIndex: int): int
  {
    (2 * shellIndex - 1) * (2 * shellIndex - 1)
  }

  function GetShellMiddle(shellIndex: int): int
  {
    4 * shellIndex * shellIndex
  }

  function GetShellEnd(shellIndex: int): int
  {
    var shellDimension := shellIndex * 2 + 1;
    shellDimension * shellDimension - 1
  }

  function GetShellStartYCoord(shellIndex: int): int { -shellIndex + 1 }
  function GetShellMiddleXCoord(shellIndex: int): int { -shellIndex }
  function GetShellMiddleYCoord(shellIndex: int): int { shellIndex }
  function GetShellEndXCoord(shellIndex: int): int { shellIndex }

  /** The right-hand side except the top-right corner. */
  predicate IsOnRightOfShell(x: int, y: int, shellIndex: int) { x == shellIndex && y != -shellIndex }

  /** The bottom side except the bottom-right corner. */
  predicate IsOnBottomOfShell(x: int, y: int, shellIndex: int) { y == shellIndex && x != shellIndex }

  /** The left-hand side except the bottom-left corner. */
  predicate IsOnLeftOfShell(x: int, y: int, shellIndex: int) { x == -shellIndex && y != shellIndex }

  /** The top side except the top-left corner. */
  predicate IsOnTopOfShell(x: int, y: int, shellIndex: int) { y == -shellIndex && x != -shellIndex }

  /**
   * The three landmarks are the values of the cells they are measured from:
   * the first cell of the shell, its bottom-left corner and its last cell.
   */
  lemma ShellLandmarks(k: int)
    requires k >= 1
    ensures GetShellStart(k) == SpiralOrder.IndexOf(Point(k, GetShellStartYCoord(k)))
    ensures GetShellMiddle(k) == SpiralOrder.IndexOf(Point(GetShellMiddleXCoord(k), GetShellMiddleYCoord(k)))
    ensures GetShellEnd(k) == SpiralOrder.IndexOf(Point(GetShellEndXCoord(k), -k))
  {
    SpiralGenerator.ShellStartValues(k);
  }

  /** The four predicates split shell k exactly as `SpiralGenerator.Shell`'s do. */
  lemma SidesMatchShell(x: int, y: int, k: int)
    ensures IsOnRightOfShell(x, y, k) == SpiralGenerator.Shell(k).IsOnRight(x, y)
    ensures IsOnBottomOfShell(x, y, k) == SpiralGenerator.Shell(k).IsOnBottom(x, y)
    ensures IsOnLeftOfShell(x, y, k) == SpiralGenerator.Shell(k).IsOnLeft(x, y)
    ensures IsOnTopOfShell(x, y, k) == SpiralGenerator.Shell(k).IsOnTop(x, y)
  {
  }
}
