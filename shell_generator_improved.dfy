/**
 * The refined shell generator: shell k is drawn as four straight runs (down
 * the right side, left along the bottom, up the left side, right along the
 * top), each run counting the running value up by one per cell and handing
 * the next value to the following run.
 */
module ShellGeneratorImproved {
  import opened Geometry
  import opened Spirals
  import SpiralGenerator
  import SpiralOrder

  method Generate(spiralTo: int) returns (spiral: Spiral)
    requires spiralTo >= 0
    ensures fresh(spiral) && fresh(spiral.numbers) && spiral.Valid()
    ensures spiral.size == Spiral.GetSpiralSize(spiralTo) && spiral.spiralTo == spiralTo
    ensures SpiralGenerator.Complete(spiral)
  {
    spiral := new Spiral(spiralTo);
    PopulateSpiral(spiral);
  }

  /** Draws shells 1 .. size/2; the origin is never written. */
  method PopulateSpiral(spiral: Spiral)
    requires spiral.Valid() && spiral.size % 2 == 1
    modifies spiral.numbers
    ensures forall r, c | 0 <= r < spiral.numbers.Length0 && 0 <= c < spiral.numbers.Length1 ::
              spiral.numbers[r, c] ==
                if spiral.CellPoint(r, c) == Point(0, 0) then old(spiral.numbers[r, c])
                else SpiralGenerator.Final(spiral, spiral.CellPoint(r, c))
  {
    var shellIndex := 1;
    while shellIndex <= spiral.size / 2
      invariant 1 <= shellIndex <= spiral.size / 2 + 1
      invariant forall r, c | 0 <= r < spiral.numbers.Length0 && 0 <= c < spiral.numbers.Length1 ::
                  spiral.numbers[r, c] ==
                    if 1 <= ShellIndexOf(spiral.CellPoint(r, c)) < shellIndex then SpiralGenerator.Final(spiral, spiral.CellPoint(r, c))
                    else old(spiral.numbers[r, c])
    {
      DrawShell(spiral, shellIndex);
      shellIndex := shellIndex + 1;
    }
    forall r, c | 0 <= r < spiral.numbers.Length0 && 0 <= c < spiral.numbers.Length1
      ensures ShellIndexOf(spiral.CellPoint(r, c)) <= spiral.size / 2
    {
      SpiralGenerator.CellsWithinShells(spiral, r, c);
    }
  }

  /** Writes every cell of shell k with its value; nothing else changes. */
  method DrawShell(spiral: Spiral, shellIndex: int)
    requires shellIndex >= 1 && SpiralGenerator.Shell(shellIndex).FitsIn(spiral)
    modifies spiral.numbers
    ensures forall r, c | 0 <= r < spiral.numbers.Length0 && 0 <= c < spiral.numbers.Length1 ::
              spiral.numbers[r, c] ==
                if ShellIndexOf(spiral.CellPoint(r, c)) == shellIndex then SpiralGenerator.Final(spiral, spiral.CellPoint(r, c))
                else old(spiral.numbers[r, c])
  {
    var k := shellIndex;
    var nextValue := DrawDown(spiral, GetShellStartingValue(k), k, -k + 1, k);
    nextValue := DrawLeft(spiral, nextValue, k, k - 1, -k);
    nextValue := DrawUp(spiral, nextValue, -k, k - 1, -k);
    DrawRight(spiral, nextValue, -k, -k + 1, k);
    forall r, c | 0 <= r < spiral.numbers.Length0 && 0 <= c < spiral.numbers.Length1
      ensures spiral.numbers[r, c] ==
                if ShellIndexOf(spiral.CellPoint(r, c)) == shellIndex then SpiralGenerator.Final(spiral, spiral.CellPoint(r, c))
                else old(spiral.numbers[r, c])
    {
      var q := spiral.CellPoint(r, c);
      if ShellIndexOf(q) == k {
        SpiralGenerator.ShellSidesPartition(k, q.x, q.y);
      }
    }
  }

  /** The number of cells from a to b inclusive, none when b < a. */
  function Count(a: int, b: int): nat
  {
    if a <= b then b - a + 1 else 0
  }

  /** Writes (x, startY) .. (x, endY) top to bottom with consecutive values; returns the next value. */
  method DrawDown(spiral: Spiral, nextValue: int, x: int, startY: int, endY: int) returns (following: int)
    requires startY <= endY ==> spiral.InGrid(Point(x, startY)) && spiral.InGrid(Point(x, endY))
    modifies spiral.numbers
    ensures following == nextValue + Count(startY, endY)
    ensures forall r, c | 0 <= r < spiral.numbers.Length0 && 0 <= c < spiral.numbers.Length1 ::
              spiral.numbers[r, c] ==
                var q := spiral.CellPoint(r, c);
                if q.x == x && startY <= q.y <= endY then spiral.UpToLimit(nextValue + (q.y - startY))
                else old(spiral.numbers[r, c])
  {
    following := nextValue;
    var y := startY;
    while y <= endY
      invariant (startY <= y <= endY + 1 || y == startY) && following == nextValue + (y - startY)
      invariant forall r, c | 0 <= r < spiral.numbers.Length0 && 0 <= c < spiral.numbers.Length1 ::
                  spiral.numbers[r, c] ==
                    var q := spiral.CellPoint(r, c);
                    if q.x == x && startY <= q.y < y then spiral.UpToLimit(nextValue + (q.y - startY))
                    else old(spiral.numbers[r, c])
    {
      spiral.SetValueRelative(x, y, following);
      following := following + 1;
      y := y + 1;
    }
  }

  /** Writes (startX, y) .. (endX, y) right to left with consecutive values; returns the next value. */
  method DrawLeft(spiral: Spiral, nextValue: int, y: int, startX: int, endX: int) returns (following: int)
    requires endX <= startX ==> spiral.InGrid(Point(startX, y)) && spiral.InGrid(Point(endX, y))
    modifies spiral.numbers
    ensures following == nextValue + Count(endX, startX)
    ensures forall r, c | 0 <= r < spiral.numbers.Length0 && 0 <= c < spiral.numbers.Length1 ::
              spiral.numbers[r, c] ==
                var q := spiral.CellPoint(r, c);
                if q.y == y && endX <= q.x <= startX then spiral.UpToLimit(nextValue + (startX - q.x))
                else old(spiral.numbers[r, c])
  {
    following := nextValue;
    var x := startX;
    while x >= endX
      invariant (endX - 1 <= x <= startX || x == startX) && following == nextValue + (startX - x)
      invariant forall r, c | 0 <= r < spiral.numbers.Length0 && 0 <= c < spiral.numbers.Length1 ::
                  spiral.numbers[r, c] ==
                    var q := spiral.CellPoint(r, c);
                    if q.y == y && x < q.x <= startX then spiral.UpToLimit(nextValue + (startX - q.x))
                    else old(spiral.numbers[r, c])
    {
      spiral.SetValueRelative(x, y, following);
      following := following + 1;
      x := x - 1;
    }
  }

  /** Writes (x, startY) .. (x, endY) bottom to top with consecutive values; returns the next value. */
  method DrawUp(spiral: Spiral, nextValue: int, x: int, startY: int, endY: int) returns (following: int)
    requires endY <= startY ==> spiral.InGrid(Point(x, startY)) && spiral.InGrid(Point(x, endY))
    modifies spiral.numbers
    ensures following == nextValue + Count(endY, startY)
    ensures forall r, c | 0 <= r < spiral.numbers.Length0 && 0 <= c < spiral.numbers.Length1 ::
              spiral.numbers[r, c] ==
                var q := spiral.CellPoint(r, c);
                if q.x == x && endY <= q.y <= startY then spiral.UpToLimit(nextValue + (startY - q.y))
                else old(spiral.numbers[r, c])
  {
    following := nextValue;
    var y := startY;
    while y >= endY
      invariant (endY - 1 <= y <= startY || y == startY) && following == nextValue + (startY - y)
      invariant forall r, c | 0 <= r < spiral.numbers.Length0 && 0 <= c < spiral.numbers.Length1 ::
                  spiral.numbers[r, c] ==
                    var q := spiral.CellPoint(r, c);
                    if q.x == x && y < q.y <= startY then spiral.UpToLimit(nextValue + (startY - q.y))
                    else old(spiral.numbers[r, c])
    {
      spiral.SetValueRelative(x, y, following);
      following := following + 1;
      y := y - 1;
    }
  }

  /** Writes (startX, y) .. (endX, y) left to right with consecutive values. */
  method DrawRight(spiral: Spiral, nextValue: int, y: int, startX: int, endX: int)
    requires startX <= endX ==> spiral.InGrid(Point(startX, y)) && spiral.InGrid(Point(endX, y))
    modifies spiral.numbers
    ensures forall r, c | 0 <= r < spiral.numbers.Length0 && 0 <= c < spiral.numbers.Length1 ::
              spiral.numbers[r, c] ==
                var q := spiral.CellPoint(r, c);
                if q.y == y && startX <= q.x <= endX then spiral.UpToLimit(nextValue + (q.x - startX))
                else old(spiral.numbers[r, c])
  {
    var following := nextValue;
    var x := startX;
    while x <= endX
      invariant (startX <= x <= endX + 1 || x == startX) && following == nextValue + (x - startX)
      invariant forall r, c | 0 <= r < spiral.numbers.Length0 && 0 <= c < spiral.numbers.Length1 ::
                  spiral.numbers[r, c] ==
                    var q := spiral.CellPoint(r, c);
                    if q.y == y && startX <= q.x < x then spiral.UpToLimit(nextValue + (q.x - startX))
                    else old(spiral.numbers[r, c])
    {
      spiral.SetValueRelative(x, y, following);
      following := following + 1;
      x := x + 1;
    }
  }

  /**
   * The first value of shell k, the square of the previous shell's width:
   * it is the index of the shell's first cell (k, -k+1), and the number of
   * cells on the shells inside it.
   */
  function GetShellStartingValue(shellIndex: int): (value: int)
    ensures shellIndex >= 1 ==> value == SpiralOrder.IndexOf(Point(shellIndex, -shellIndex + 1))
    ensures shellIndex >= 1 ==> value == (2 * shellIndex - 1) * (2 * shellIndex - 1)
  {
    var previousShellDimension := (shellIndex - 1) * 2 + 1;
    previousShellDimension * previousShellDimension
  }

  /** The four runs of shell k hold 2k cells each and end at (2k+1)², where shell k+1 starts. */
  lemma ShellRunsContinue(k: int)
    requires k >= 1
    ensures Count(-k + 1, k) == 2 * k && Count(-k, k - 1) == 2 * k
    ensures GetShellStartingValue(k) + 4 * Count(-k + 1, k) == GetShellStartingValue(k + 1)
  {
  }
}
