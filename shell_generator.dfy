/**
 * The rectangle-drawing shell generator: shell k is the border of the
 * rectangle with corners (-k,-k) and (k,k), drawn as four lines starting
 * from the value (2k-1)².  A line is drawn by a horizontal run and then a
 * vertical run, each counting the running value up by one per cell.
 */
module ShellGenerator {
  import opened Geometry
  import opened Spirals
  import SpiralGenerator

  /** An axis-aligned rectangle: Right = X + Width and Bottom = Y + Height. */
  datatype Rectangle = Rectangle(x: int, y: int, width: int, height: int)
  {
    function Left(): int { x }
    function Top(): int { y }
    function Right(): int { x + width }
    function Bottom(): int { y + height }
  }

  /** How many cells a run from coordinate a to coordinate b writes: none when a == b. */
  function Span(a: int, b: int): nat
  {
    if a == b then 0 else Abs(b - a) + 1
  }

  /** Whether `i` lies on a run from a to b (a run with a == b is empty). */
  predicate OnRun(i: int, a: int, b: int)
  {
    a != b && ((a <= i <= b) || (b <= i <= a))
  }

  /**
   * The cell `q` after `DrawLine(nextValue, start, end)` when it held
   * `prior`: the vertical run, drawn second, wins over the horizontal one.
   */
  function LineValue(spiral: Spiral, q: Point, nextValue: int, start: Point, end: Point, prior: int): int
  {
    if q.x == start.x && OnRun(q.y, start.y, end.y) then spiral.UpToLimit(nextValue + Span(start.x, end.x) + Abs(q.y - start.y))
    else if q.y == start.y && OnRun(q.x, start.x, end.x) then spiral.UpToLimit(nextValue + Abs(q.x - start.x))
    else prior
  }

  method Generate(spiralTo: int) returns (spiral: Spiral)
    requires spiralTo >= 0
    ensures fresh(spiral) && fresh(spiral.numbers) && spiral.Valid()
    ensures spiral.size == Spiral.GetSpiralSize(spiralTo) && spiral.spiralTo == spiralTo
    ensures SpiralGenerator.Complete(spiral)
  {
    spiral := new Spiral(spiralTo);
    PopulateSpiral(spiral);
  }

  /** Draws shells 1 .. size/2; the origin is never written. */
  method PopulateSpiral(spiral: Spiral)
    requires spiral.Valid() && spiral.size % 2 == 1
    modifies spiral.numbers
    ensures forall r, c | 0 <= r < spiral.numbers.Length0 && 0 <= c < spiral.numbers.Length1 ::
              spiral.numbers[r, c] ==
                if spiral.CellPoint(r, c) == Point(0, 0) then old(spiral.numbers[r, c])
                else SpiralGenerator.Final(spiral, spiral.CellPoint(r, c))
  {
    var shellIndex := 1;
    while shellIndex <= spiral.size / 2
      invariant 1 <= shellIndex <= spiral.size / 2 + 1
      invariant forall r, c | 0 <= r < spiral.numbers.Length0 && 0 <= c < spiral.numbers.Length1 ::
                  spiral.numbers[r, c] ==
                    if 1 <= ShellIndexOf(spiral.CellPoint(r, c)) < shellIndex then SpiralGenerator.Final(spiral, spiral.CellPoint(r, c))
                    else old(spiral.numbers[r, c])
    {
      DrawShell(spiral, shellIndex);
      shellIndex := shellIndex + 1;
    }
    forall r, c | 0 <= r < spiral.numbers.Length0 && 0 <= c < spiral.numbers.Length1
      ensures ShellIndexOf(spiral.CellPoint(r, c)) <= spiral.size / 2
    {
      SpiralGenerator.CellsWithinShells(spiral, r, c);
    }
  }

  /** The square with corners (-k,-k) and (k,k). */
  function ShellCorners(shellIndex: int): Rectangle
  {
    var shellDimension := shellIndex * 2 + 1;
    Rectangle(-shellIndex, -shellIndex, shellDimension - 1, shellDimension - 1)
  }

  /** Writes every cell of shell k with its value; nothing else changes. */
  method DrawShell(spiral: Spiral, shellIndex: int)
    requires shellIndex >= 1 && SpiralGenerator.Shell(shellIndex).FitsIn(spiral)
    modifies spiral.numbers
    ensures forall r, c | 0 <= r < spiral.numbers.Length0 && 0 <= c < spiral.numbers.Length1 ::
              spiral.numbers[r, c] ==
                if ShellIndexOf(spiral.CellPoint(r, c)) == shellIndex then SpiralGenerator.Final(spiral, spiral.CellPoint(r, c))
                else old(spiral.numbers[r, c])
  {
    var shellDimension := shellIndex * 2 + 1;
    var previousShellDimension := (shellIndex - 1) * 2 + 1;
    var nextValue := previousShellDimension * previousShellDimension;
    var shellCorners := ShellCorners(shellIndex);
    DrawRectangle(spiral, nextValue, shellCorners);
    forall r, c | 0 <= r < spiral.numbers.Length0 && 0 <= c < spiral.numbers.Length1
      ensures spiral.numbers[r, c] ==
                if ShellIndexOf(spiral.CellPoint(r, c)) == shellIndex then SpiralGenerator.Final(spiral, spiral.CellPoint(r, c))
                else old(spiral.numbers[r, c])
    {
      ShellRectangleValue(spiral, shellIndex, spiral.CellPoint(r, c), old(spiral.numbers[r, c]));
    }
  }

  /** The four lines of `DrawRectangle`, as (start, end) pairs. */
  function RightLine(rect: Rectangle): (Point, Point)
  {
    (Point(rect.Right(), rect.Top() + 1), Point(rect.Right(), rect.Bottom()))
  }

  function BottomLine(rect: Rectangle): (Point, Point)
  {
    (Point(rect.Right() - 1, rect.Bottom()), Point(rect.Left(), rect.Bottom()))
  }

  function LeftLine(rect: Rectangle): (Point, Point)
  {
    (Point(rect.Left(), rect.Bottom() - 1), Point(rect.Left(), rect.Top()))
  }

  function TopLine(rect: Rectangle): (Point, Point)
  {
    (Point(rect.Left() + 1, rect.Top()), Point(rect.Right(), rect.Top()))
  }

  /** Every cell a line from `start` to `end` writes lies inside the grid. */
  predicate LineFits(spiral: Spiral, line: (Point, Point))
  {
    spiral.InGrid(line.0) && spiral.InGrid(Point(line.1.x, line.0.y)) && spiral.InGrid(Point(line.0.x, line.1.y))
  }

  /** The value the running counter holds after drawing `line` from `nextValue`. */
  function AfterLine(nextValue: int, line: (Point, Point)): int
  {
    nextValue + Span(line.0.x, line.1.x) + Span(line.0.y, line.1.y)
  }

  /**
   * The cell `q` after `DrawRectangle(firstValue, rect)` when it held
   * `prior`: the four lines applied in order, each starting where the
   * previous one stopped counting.
   */
  function RectangleValue(spiral: Spiral, q: Point, firstValue: int, rect: Rectangle, prior: int): int
  {
    var v1 := AfterLine(firstValue, RightLine(rect));
    var v2 := AfterLine(v1, BottomLine(rect));
    var v3 := AfterLine(v2, LeftLine(rect));
    var afterRight := LineValue(spiral, q, firstValue, RightLine(rect).0, RightLine(rect).1, prior);
    var afterBottom := LineValue(spiral, q, v1, BottomLine(rect).0, BottomLine(rect).1, afterRight);
    var afterLeft := LineValue(spiral, q, v2, LeftLine(rect).0, LeftLine(rect).1, afterBottom);
    LineValue(spiral, q, v3, TopLine(rect).0, TopLine(rect).1, afterLeft)
  }

  method DrawRectangle(spiral: Spiral, firstValue: int, shellCorners: Rectangle)
    requires LineFits(spiral, RightLine(shellCorners)) && LineFits(spiral, BottomLine(shellCorners))
    requires LineFits(spiral, LeftLine(shellCorners)) && LineFits(spiral, TopLine(shellCorners))
    modifies spiral.numbers
    ensures forall r, c | 0 <= r < spiral.numbers.Length0 && 0 <= c < spiral.numbers.Length1 ::
              spiral.numbers[r, c] == RectangleValue(spiral, spiral.CellPoint(r, c), firstValue, shellCorners, old(spiral.numbers[r, c]))
  {
    var nextValue := DrawLine(spiral, firstValue, RightLine(shellCorners).0, RightLine(shellCorners).1);
    nextValue := DrawLine(spiral, nextValue, BottomLine(shellCorners).0, BottomLine(shellCorners).1);
    nextValue := DrawLine(spiral, nextValue, LeftLine(shellCorners).0, LeftLine(shellCorners).1);
    nextValue := DrawLine(spiral, nextValue, TopLine(shellCorners).0, TopLine(shellCorners).1);
  }

  /**
   * Draws the horizontal run from `start` towards `end.x` and then the
   * vertical run from `start` towards `end.y`, counting up from `nextValue`;
   * returns the value after the last one written.
   */
  method DrawLine(spiral: Spiral, nextValue: int, start: Point, end: Point) returns (following: int)
    requires LineFits(spiral, (start, end))
    modifies spiral.numbers
    ensures following == AfterLine(nextValue, (start, end))
    ensures forall r, c | 0 <= r < spiral.numbers.Length0 && 0 <= c < spiral.numbers.Length1 ::
              spiral.numbers[r, c] == LineValue(spiral, spiral.CellPoint(r, c), nextValue, start, end, old(spiral.numbers[r, c]))
  {
    following := DrawRow(spiral, nextValue, start.y, start.x, end.x);
    following := DrawColumn(spiral, following, start.x, start.y, end.y);
  }

  /**
   * The horizontal half of `DrawLine`: writes row y from x = a towards x = b
   * (nothing when a == b), counting up from `nextValue`.
   */
  method DrawRow(spiral: Spiral, nextValue: int, y: int, a: int, b: int) returns (following: int)
    requires spiral.InGrid(Point(a, y)) && spiral.InGrid(Point(b, y))
    modifies spiral.numbers
    ensures following == nextValue + Span(a, b)
    ensures forall r, c | 0 <= r < spiral.numbers.Length0 && 0 <= c < spiral.numbers.Length1 ::
              spiral.numbers[r, c] ==
                var q := spiral.CellPoint(r, c);
                if q.y == y && OnRun(q.x, a, b) then spiral.UpToLimit(nextValue + Abs(q.x - a))
                else old(spiral.numbers[r, c])
  {
    following := nextValue;
    if a < b {
      var i := a;
      while i <= b
        invariant a <= i <= b + 1 && following == nextValue + (i - a)
        invariant forall r, c | 0 <= r < spiral.numbers.Length0 && 0 <= c < spiral.numbers.Length1 ::
                    spiral.numbers[r, c] ==
                      var q := spiral.CellPoint(r, c);
                      if q.y == y && a <= q.x < i then spiral.UpToLimit(nextValue + (q.x - a))
                      else old(spiral.numbers[r, c])
      {
        spiral.SetValueRelative(i, y, following);
        following := following + 1;
        i := i + 1;
      }
    } else if a > b {
      var i := a;
      while i >= b
        invariant b - 1 <= i <= a && following == nextValue + (a - i)
        invariant forall r, c | 0 <= r < spiral.numbers.Length0 && 0 <= c < spiral.numbers.Length1 ::
                    spiral.numbers[r, c] ==
                      var q := spiral.CellPoint(r, c);
                      if q.y == y && i < q.x <= a then spiral.UpToLimit(nextValue + (a - q.x))
                      else old(spiral.numbers[r, c])
      {
        spiral.SetValueRelative(i, y, following);
        following := following + 1;
        i := i - 1;
      }
    }
  }

  /**
   * The vertical half of `DrawLine`: writes column x from y = a towards
   * y = b (nothing when a == b), counting up from `nextValue`.
   */
  method DrawColumn(spiral: Spiral, nextValue: int, x: int, a: int, b: int) returns (following: int)
    requires spiral.InGrid(Point(x, a)) && spiral.InGrid(Point(x, b))
    modifies spiral.numbers
    ensures following == nextValue + Span(a, b)
    ensures forall r, c | 0 <= r < spiral.numbers.Length0 && 0 <= c < spiral.numbers.Length1 ::
              spiral.numbers[r, c] ==
                var q := spiral.CellPoint(r, c);
                if q.x == x && OnRun(q.y, a, b) then spiral.UpToLimit(nextValue + Abs(q.y - a))
                else old(spiral.numbers[r, c])
  {
    following := nextValue;
    if a < b {
      var i := a;
      while i <= b
        invariant a <= i <= b + 1 && following == nextValue + (i - a)
        invariant forall r, c | 0 <= r < spiral.numbers.Length0 && 0 <= c < spiral.numbers.Length1 ::
                    spiral.numbers[r, c] ==
                      var q := spiral.CellPoint(r, c);
                      if q.x == x && a <= q.y < i then spiral.UpToLimit(nextValue + (q.y - a))
                      else old(spiral.numbers[r, c])
      {
        spiral.SetValueRelative(x, i, following);
        following := following + 1;
        i := i + 1;
      }
    } else if a > b {
      var i := a;
      while i >= b
        invariant b - 1 <= i <= a && following == nextValue + (a - i)
        invariant forall r, c | 0 <= r < spiral.numbers.Length0 && 0 <= c < spiral.numbers.Length1 ::
                    spiral.numbers[r, c] ==
                      var q := spiral.CellPoint(r, c);
                      if q.x == x && i < q.y <= a then spiral.UpToLimit(nextValue + (a - q.y))
                      else old(spiral.numbers[r, c])
      {
        spiral.SetValueRelative(x, i, following);
        following := following + 1;
        i := i - 1;
      }
    }
  }

  /**
   * On the rectangle of shell k, started from (2k-1)², the four lines write
   * exactly the ring of shell k, each cell with its final value.
   */
  lemma ShellRectangleValue(spiral: Spiral, k: int, q: Point, prior: int)
    requires k >= 1
    ensures RectangleValue(spiral, q, (2 * k - 1) * (2 * k - 1), ShellCorners(k), prior) ==
              if ShellIndexOf(q) == k then SpiralGenerator.Final(spiral, q) else prior
  {
    if ShellIndexOf(q) == k {
      SpiralGenerator.ShellSidesPartition(k, q.x, q.y);
    }
  }

  /**
   * Shell k's four lines are 2k cells each, the right and left ones vertical
   * and the bottom and top ones horizontal, and they count from (2k-1)² up
   * to (2k+1)², where shell k+1 starts.
   */
  lemma ShellLinesContinue(k: int)
    requires k >= 1
    ensures var rect := ShellCorners(k);
            AfterLine(AfterLine(AfterLine(AfterLine((2 * k - 1) * (2 * k - 1), RightLine(rect)), BottomLine(rect)), LeftLine(rect)), TopLine(rect))
              == (2 * k + 1) * (2 * k + 1)
    ensures var right := RightLine(ShellCorners(k));
            Span(right.0.x, right.1.x) == 0 && Span(right.0.y, right.1.y) == 2 * k
    ensures var bottom := BottomLine(ShellCorners(k));
            Span(bottom.0.x, bottom.1.x) == 2 * k && Span(bottom.0.y, bottom.1.y) == 0
    ensures var left := LeftLine(ShellCorners(k));
            Span(left.0.x, left.1.x) == 0 && Span(left.0.y, left.1.y) == 2 * k
    ensures var top := TopLine(ShellCorners(k));
            Span(top.0.x, top.1.x) == 2 * k && Span(top.0.y, top.1.y) == 0
  {
  }
}
