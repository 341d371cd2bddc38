/**
 * The shell-based generator.  Shell k is the square ring of cells whose
 * Chebyshev distance from the origin is k; it holds the 8k values
 * (2k-1)² .. (2k+1)²-1, drawn as four sides of 2k cells each: right (top to
 * bottom), bottom (right to left), left (bottom to top) and top (left to
 * right).  Each side owns the corner at its END: (k,k) belongs to the right
 * side, (-k,k) to the bottom, (-k,-k) to the left and (k,-k) to the top.
 *
 * `GetValueAt` is the random-access index of a cell; every other generator
 * in this model is proved to agree with it.
 */
module SpiralGenerator {
  import opened Geometry
  import opened Spirals

  datatype Shell = Shell(index: int)
  {
    function SideLength(): int { 2 * index }

    function RightStartValue(): int { (SideLength() - 1) * (SideLength() - 1) }
    function RightStartY(): int { -index + 1 }

    function BottomStartValue(): int { RightStartValue() + SideLength() }
    function BottomStartX(): int { index - 1 }

    function LeftStartValue(): int { BottomStartValue() + SideLength() }
    function LeftStartY(): int { index - 1 }

    function TopStartValue(): int { LeftStartValue() + SideLength() }
    function TopStartX(): int { -index + 1 }

    /** The right-hand side, without the top-right corner (which belongs to the top). */
    predicate IsOnRight(x: int, y: int) { x == index && y != -index }

    /** The bottom side, without the bottom-right corner (which belongs to the right). */
    predicate IsOnBottom(x: int, y: int) { y == index && x != index }

    /** The left-hand side, without the bottom-left corner (which belongs to the bottom). */
    predicate IsOnLeft(x: int, y: int) { x == -index && y != index }

    /** The top side, without the top-left corner (which belongs to the left). */
    predicate IsOnTop(x: int, y: int) { y == -index && x != -index }

    /**
     * The value at (x, y): the start value of the side holding the point plus
     * the distance travelled along that side.  `None` stands for the
     * exception raised when no side claims the point; it cannot happen for
     * a point of this shell.
     */
    function GetValueAt(x: int, y: int): (value: Option<int>)
      ensures index >= 1 && ShellIndexOf(Point(x, y)) == index ==>
                value.Some? && (2 * index - 1) * (2 * index - 1) <= value.value < (2 * index + 1) * (2 * index + 1)
    {
      if IsOnRight(x, y) then Some(RightStartValue() + (y - RightStartY()))
      else if IsOnBottom(x, y) then Some(BottomStartValue() + (BottomStartX() - x))
      else if IsOnLeft(x, y) then Some(LeftStartValue() + (LeftStartY() - y))
      else if IsOnTop(x, y) then Some(TopStartValue() + (x - TopStartX()))
      else None
    }

    /** The whole ring lies inside the grid (vacuous for a shell with no cells). */
    predicate FitsIn(spiral: Spiral)
    {
      index <= 0 || (spiral.InGrid(Point(-index, -index)) && spiral.InGrid(Point(index, index)))
    }

    /** Writes every cell of the ring with its value; nothing else changes. */
    method DrawOn(spiral: Spiral)
      requires FitsIn(spiral)
      modifies spiral.numbers
      ensures forall r, c | 0 <= r < spiral.numbers.Length0 && 0 <= c < spiral.numbers.Length1 ::
                spiral.numbers[r, c] ==
                  if index >= 1 && ShellIndexOf(spiral.CellPoint(r, c)) == index then Final(spiral, spiral.CellPoint(r, c))
                  else old(spiral.numbers[r, c])
    {
      DrawRightOn(spiral);
      DrawBottomOn(spiral);
      DrawLeftOn(spiral);
      DrawTopOn(spiral);
      forall r, c | 0 <= r < spiral.numbers.Length0 && 0 <= c < spiral.numbers.Length1
        ensures spiral.numbers[r, c] ==
                  if index >= 1 && ShellIndexOf(spiral.CellPoint(r, c)) == index then Final(spiral, spiral.CellPoint(r, c))
                  else old(spiral.numbers[r, c])
      {
        var q := spiral.CellPoint(r, c);
        if index >= 1 && ShellIndexOf(q) == index {
          ShellSidesPartition(index, q.x, q.y);
        }
      }
    }

    method DrawRightOn(spiral: Spiral)
      requires FitsIn(spiral)
      modifies spiral.numbers
      ensures forall r, c | 0 <= r < spiral.numbers.Length0 && 0 <= c < spiral.numbers.Length1 ::
                spiral.numbers[r, c] ==
                  var q := spiral.CellPoint(r, c);
                  if q.x == index && RightStartY() <= q.y < RightStartY() + SideLength()
                  then spiral.UpToLimit(RightStartValue() + (q.y - RightStartY()))
                  else old(spiral.numbers[r, c])
    {
      var i := 0;
      while i < SideLength()
        invariant 0 <= i && (i <= SideLength() || i == 0)
        invariant forall r, c | 0 <= r < spiral.numbers.Length0 && 0 <= c < spiral.numbers.Length1 ::
                    spiral.numbers[r, c] ==
                      var q := spiral.CellPoint(r, c);
                      if q.x == index && RightStartY() <= q.y < RightStartY() + i
                      then spiral.UpToLimit(RightStartValue() + (q.y - RightStartY()))
                      else old(spiral.numbers[r, c])
      {
        spiral.SetValueRelative(index, RightStartY() + i, RightStartValue() + i);
        i := i + 1;
      }
    }

    method DrawBottomOn(spiral: Spiral)
      requires FitsIn(spiral)
      modifies spiral.numbers
      ensures forall r, c | 0 <= r < spiral.numbers.Length0 && 0 <= c < spiral.numbers.Length1 ::
                spiral.numbers[r, c] ==
                  var q := spiral.CellPoint(r, c);
                  if q.y == index && BottomStartX() - SideLength() < q.x <= BottomStartX()
                  then spiral.UpToLimit(BottomStartValue() + (BottomStartX() - q.x))
                  else old(spiral.numbers[r, c])
    {
      var i := 0;
      while i < SideLength()
        invariant 0 <= i && (i <= SideLength() || i == 0)
        invariant forall r, c | 0 <= r < spiral.numbers.Length0 && 0 <= c < spiral.numbers.Length1 ::
                    spiral.numbers[r, c] ==
                      var q := spiral.CellPoint(r, c);
                      if q.y == index && BottomStartX() - i < q.x <= BottomStartX()
                      then spiral.UpToLimit(BottomStartValue() + (BottomStartX() - q.x))
                      else old(spiral.numbers[r, c])
      {
        spiral.SetValueRelative(BottomStartX() - i, index, BottomStartValue() + i);
        i := i + 1;
      }
    }

    method DrawLeftOn(spiral: Spiral)
      requires FitsIn(spiral)
      modifies spiral.numbers
      ensures forall r, c | 0 <= r < spiral.numbers.Length0 && 0 <= c < spiral.numbers.Length1 ::
                spiral.numbers[r, c] ==
                  var q := spiral.CellPoint(r, c);
                  if q.x == -index && LeftStartY() - SideLength() < q.y <= LeftStartY()
                  then spiral.UpToLimit(LeftStartValue() + (LeftStartY() - q.y))
                  else old(spiral.numbers[r, c])
    {
      var i := 0;
      while i < SideLength()
        invariant 0 <= i && (i <= SideLength() || i == 0)
        invariant forall r, c | 0 <= r < spiral.numbers.Length0 && 0 <= c < spiral.numbers.Length1 ::
                    spiral.numbers[r, c] ==
                      var q := spiral.CellPoint(r, c);
                      if q.x == -index && LeftStartY() - i < q.y <= LeftStartY()
                      then spiral.UpToLimit(LeftStartValue() + (LeftStartY() - q.y))
                      else old(spiral.numbers[r, c])
      {
        spiral.SetValueRelative(-index, LeftStartY() - i, LeftStartValue() + i);
        i := i + 1;
      }
    }

    method DrawTopOn(spiral: Spiral)
      requires FitsIn(spiral)
      modifies spiral.numbers
      ensures forall r, c | 0 <= r < spiral.numbers.Length0 && 0 <= c < spiral.numbers.Length1 ::
                spiral.numbers[r, c] ==
                  var q := spiral.CellPoint(r, c);
                  if q.y == -index && TopStartX() <= q.x < TopStartX() + SideLength()
                  then spiral.UpToLimit(TopStartValue() + (q.x - TopStartX()))
                  else old(spiral.numbers[r, c])
    {
      var i := 0;
      while i < SideLength()
        invariant 0 <= i && (i <= SideLength() || i == 0)
        invariant forall r, c | 0 <= r < spiral.numbers.Length0 && 0 <= c < spiral.numbers.Length1 ::
                    spiral.numbers[r, c] ==
                      var q := spiral.CellPoint(r, c);
                      if q.y == -index && TopStartX() <= q.x < TopStartX() + i
                      then spiral.UpToLimit(TopStartValue() + (q.x - TopStartX()))
                      else old(spiral.numbers[r, c])
      {
        spiral.SetValueRelative(TopStartX() + i, -index, TopStartValue() + i);
        i := i + 1;
      }
    }
  }

  /** The start values chain around the ring and the last one ends where shell k+1 begins. */
  lemma ShellStartValues(k: int)
    ensures Shell(k).RightStartValue() == (2 * k - 1) * (2 * k - 1)
    ensures Shell(k).BottomStartValue() == 4 * k * k - 2 * k + 1
    ensures Shell(k).LeftStartValue() == 4 * k * k + 1
    ensures Shell(k).TopStartValue() + Shell(k).SideLength() == (2 * k + 1) * (2 * k + 1)
  {
  }

  /**
   * The index in closed form on each side of shell k: the right side counts
   * down from (2k-1)², the bottom ends at 4k² in its left corner, the left
   * side counts up from there and the top ends at (2k+1)²-1 in its right
   * corner.
   */
  lemma ValueOnSides(x: int, y: int)
    requires x != 0 || y != 0
    ensures var k := ShellIndexOf(Point(x, y));
            && (Shell(k).IsOnRight(x, y) ==> GetValueAt(x, y) == (2 * k - 1) * (2 * k - 1) + (y + k - 1))
            && (Shell(k).IsOnBottom(x, y) ==> GetValueAt(x, y) == 4 * k * k - (x + k))
            && (Shell(k).IsOnLeft(x, y) ==> GetValueAt(x, y) == 4 * k * k + (k - y))
            && (Shell(k).IsOnTop(x, y) ==> GetValueAt(x, y) == (2 * k + 1) * (2 * k + 1) - 1 - (k - x))
  {
    ShellStartValues(ShellIndexOf(Point(x, y)));
  }

  /** On shell k exactly one of the four side predicates holds. */
  lemma ShellSidesPartition(k: int, x: int, y: int)
    requires k >= 1 && ShellIndexOf(Point(x, y)) == k
    ensures Shell(k).IsOnRight(x, y) || Shell(k).IsOnBottom(x, y) || Shell(k).IsOnLeft(x, y) || Shell(k).IsOnTop(x, y)
    ensures !(Shell(k).IsOnRight(x, y) && Shell(k).IsOnBottom(x, y))
    ensures !(Shell(k).IsOnRight(x, y) && Shell(k).IsOnLeft(x, y))
    ensures !(Shell(k).IsOnRight(x, y) && Shell(k).IsOnTop(x, y))
    ensures !(Shell(k).IsOnBottom(x, y) && Shell(k).IsOnLeft(x, y))
    ensures !(Shell(k).IsOnBottom(x, y) && Shell(k).IsOnTop(x, y))
    ensures !(Shell(k).IsOnLeft(x, y) && Shell(k).IsOnTop(x, y))
  {
  }

  /**
   * The spiral index of the cell (x, y): 0 at the origin, and a value of
   * the ring (2k-1)² .. (2k+1)²-1 on shell k.
   */
  function GetValueAt(x: int, y: int): (value: int)
    ensures x == 0 && y == 0 ==> value == 0
    ensures x != 0 || y != 0 ==>
              var k := ShellIndexOf(Point(x, y));
              1 <= (2 * k - 1) * (2 * k - 1) <= value < (2 * k + 1) * (2 * k + 1)
  {
    if x == 0 && y == 0 then 0
    else
      var shellIndex := Max(Abs(x), Abs(y));
      SquareMonotonic(1, 2 * shellIndex - 1);
      match Shell(shellIndex).GetValueAt(x, y)
      case Some(v) => v
      case None => assert false; 0
  }

  /** The value the finished grid holds at the origin-relative point `p`. */
  function Final(spiral: Spiral, p: Point): int
  {
    spiral.UpToLimit(GetValueAt(p.x, p.y))
  }

  /** Every cell holds its spiral index, or -1 where that index exceeds the target. */
  ghost predicate Complete(spiral: Spiral)
    reads spiral.numbers
  {
    forall r, c | 0 <= r < spiral.numbers.Length0 && 0 <= c < spiral.numbers.Length1 ::
      spiral.numbers[r, c] == Final(spiral, spiral.CellPoint(r, c))
  }

  /** In a grid of odd width every cell lies on a shell the generators draw. */
  lemma CellsWithinShells(spiral: Spiral, r: int, c: int)
    requires spiral.Valid() && spiral.size % 2 == 1
    requires 0 <= r < spiral.size && 0 <= c < spiral.size
    ensures ShellIndexOf(spiral.CellPoint(r, c)) <= spiral.size / 2
  {
  }

  method Generate(spiralTo: int) returns (spiral: Spiral)
    requires spiralTo >= 0
    ensures fresh(spiral) && fresh(spiral.numbers) && spiral.Valid()
    ensures spiral.size == Spiral.GetSpiralSize(spiralTo) && spiral.spiralTo == spiralTo
    ensures Complete(spiral)
  {
    spiral := new Spiral(spiralTo);
    PopulateSpiral(spiral);
  }

  /** Draws shells 1 .. size/2; the origin is never written. */
  method PopulateSpiral(spiral: Spiral)
    requires spiral.Valid() && spiral.size % 2 == 1
    modifies spiral.numbers
    ensures forall r, c | 0 <= r < spiral.numbers.Length0 && 0 <= c < spiral.numbers.Length1 ::
              spiral.numbers[r, c] ==
                if spiral.CellPoint(r, c) == Point(0, 0) then old(spiral.numbers[r, c])
                else Final(spiral, spiral.CellPoint(r, c))
  {
    var shellIndex := 1;
    while shellIndex < spiral.size / 2 + 1
      invariant 1 <= shellIndex <= spiral.size / 2 + 1
      invariant forall r, c | 0 <= r < spiral.numbers.Length0 && 0 <= c < spiral.numbers.Length1 ::
                  spiral.numbers[r, c] ==
                    if 1 <= ShellIndexOf(spiral.CellPoint(r, c)) < shellIndex then Final(spiral, spiral.CellPoint(r, c))
                    else old(spiral.numbers[r, c])
    {
      Shell(shellIndex).DrawOn(spiral);
      shellIndex := shellIndex + 1;
    }
    forall r, c | 0 <= r < spiral.numbers.Length0 && 0 <= c < spiral.numbers.Length1
      ensures ShellIndexOf(spiral.CellPoint(r, c)) <= spiral.size / 2
    {
      CellsWithinShells(spiral, r, c);
    }
  }
}
