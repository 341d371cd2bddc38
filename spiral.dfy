/**
 * The grid a spiral is drawn on: a square array of numbers whose centre cell
 * is the origin of the spiral.  Cells are addressed either absolutely, with
 * (0,0) the upper-left corner, or relative to the origin; in both cases x is
 * the column and y the row.  Every value written above the target `spiralTo`
 * is replaced by the sentinel -1.
 */
module Spirals {
  import opened Geometry

  class Spiral {
    const numbers: array2<int>
    const spiralTo: int
    const origin: Point
    const size: int

    /** The array is square, `size` wide, and the origin sits at its centre. */
    ghost predicate Valid()
    {
      numbers.Length0 == size && numbers.Length1 == size &&
      origin == Point(size / 2, size / 2)
    }

    /**
     * The width of the grid for `spiralTo`: ⌊√spiralTo⌋ + 1, raised to the
     * next odd number when even.
     */
    static function GetSpiralSize(spiralTo: int): (width: int)
      requires spiralTo >= 0
      ensures width >= 1 && width % 2 == 1
      ensures spiralTo < width * width
      ensures width >= 3 ==> (width - 2) * (width - 2) <= spiralTo
    {
      var root := FloorSqrt(spiralTo);
      SquareMonotonic(root + 1, root + 2);
      var width := root + 1;
      if width % 2 == 0 then width + 1 else width
    }

    /** A fresh all-zero grid just large enough for the values 0..spiralTo. */
    constructor (spiralTo: int)
      requires spiralTo >= 0
      ensures Valid() && fresh(numbers)
      ensures size == GetSpiralSize(spiralTo) && this.spiralTo == spiralTo
      ensures size == 2 * origin.x + 1
      ensures forall r, c :: 0 <= r < numbers.Length0 && 0 <= c < numbers.Length1 ==> numbers[r, c] == 0
    {
      var width := GetSpiralSize(spiralTo);
      size := width;
      numbers := new int[width, width]((_, _) => 0);
      origin := Point(width / 2, width / 2);
      this.spiralTo := spiralTo;
    }

    /** A grid over an existing square array, which it shares rather than copies. */
    constructor FromNumbers(numbers: array2<int>, spiralTo: int)
      requires numbers.Length0 == numbers.Length1
      ensures Valid()
      ensures this.numbers == numbers && size == numbers.Length0 && this.spiralTo == spiralTo
    {
      this.numbers := numbers;
      size := numbers.Length0;
      origin := Point(numbers.Length0 / 2, numbers.Length0 / 2);
      this.spiralTo := spiralTo;
    }

    /** What a write of `i` stores: `i` itself up to the target, -1 beyond it. */
    function UpToLimit(i: int): int
    {
      if i <= spiralTo then i else -1
    }

    /** The point, relative to the origin, of the cell in row `row` and column `col`. */
    function CellPoint(row: int, col: int): Point
    {
      Point(col - origin.x, row - origin.y)
    }

    /** Whether the origin-relative point `p` lies inside the grid. */
    predicate InGrid(p: Point)
    {
      0 <= p.y + origin.y < numbers.Length0 && 0 <= p.x + origin.x < numbers.Length1
    }

    function GetValueAbsolute(absoluteX: int, absoluteY: int): int
      reads numbers
      requires 0 <= absoluteY < numbers.Length0 && 0 <= absoluteX < numbers.Length1
    {
      numbers[absoluteY, absoluteX]
    }

    method SetValueAbsolute(absoluteX: int, absoluteY: int, value: int)
      requires 0 <= absoluteY < numbers.Length0 && 0 <= absoluteX < numbers.Length1
      modifies numbers
      ensures GetValueAbsolute(absoluteX, absoluteY) == UpToLimit(value)
      ensures forall r, c :: 0 <= r < numbers.Length0 && 0 <= c < numbers.Length1 && (r != absoluteY || c != absoluteX)
                ==> numbers[r, c] == old(numbers[r, c])
    {
      numbers[absoluteY, absoluteX] := UpToLimit(value);
    }

    function GetValueRelative(x: int, y: int): int
      reads numbers
      requires InGrid(Point(x, y))
    {
      numbers[y + origin.y, x + origin.x]
    }

    method SetValueRelative(x: int, y: int, value: int)
      requires InGrid(Point(x, y))
      modifies numbers
      ensures GetValueRelative(x, y) == UpToLimit(value)
      ensures GetValueRelative(x, y) == GetValueAbsolute(x + origin.x, y + origin.y)
      ensures forall r, c :: 0 <= r < numbers.Length0 && 0 <= c < numbers.Length1 && CellPoint(r, c) != Point(x, y)
                ==> numbers[r, c] == old(numbers[r, c])
    {
      numbers[y + origin.y, x + origin.x] := UpToLimit(value);
    }

    /** The grid as a sequence of rows, the shape the tests compare against. */
    function Rows(): (rows: seq<seq<int>>)
      reads numbers
      ensures |rows| == numbers.Length0
      ensures forall r :: 0 <= r < |rows| ==> |rows[r]| == numbers.Length1
      ensures forall r, c :: 0 <= r < numbers.Length0 && 0 <= c < numbers.Length1 ==> rows[r][c] == numbers[r, c]
    {
      seq(numbers.Length0, r requires 0 <= r < numbers.Length0 reads numbers =>
        seq(numbers.Length1, c requires 0 <= c < numbers.Length1 reads numbers => numbers[r, c]))
    }
  }

  /** The cell of row r and column c is the point p exactly when p's absolute coordinates are (c, r). */
  lemma CellPointIs(spiral: Spiral, r: int, c: int, p: Point)
    ensures spiral.CellPoint(r, c) == p <==> r == p.y + spiral.origin.y && c == p.x + spiral.origin.x
  {
  }
}
