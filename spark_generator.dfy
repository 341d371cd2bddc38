/**
 * The spark generator: a cursor (the "spark") burns along the spiral,
 * writing consecutive values.  It tracks the side it is on, the length of
 * that side and how much of it has been drawn; side lengths grow by two
 * each time the spark leaves a top side.  Positions are absolute grid
 * coordinates.
 */
module SparkGenerator {
  import opened Geometry
  import opened Spirals
  import SpiralGenerator
  import SpiralOrder

  datatype Side = Top | Right | Bottom | Left

  function GetNextPositionOnCurrentSide(currentSide: Side, position: Point): (next: Point)
    ensures Abs(next.x - position.x) + Abs(next.y - position.y) == 1
  {
    match currentSide
    case Top => Point(position.x + 1, position.y)
    case Right => Point(position.x, position.y + 1)
    case Bottom => Point(position.x - 1, position.y)
    case Left => Point(position.x, position.y - 1)
  }

  /**
   * Leaving a top side lengthens the sides by two; every other side change
   * keeps the length.  Side lengths never shrink and stay even.
   */
  function GetNextSideLength(lastSide: Side, currentSideLength: int): (length: int)
    ensures currentSideLength <= length <= currentSideLength + 2
    ensures currentSideLength % 2 == 0 ==> length % 2 == 0
  {
    if lastSide == Top then currentSideLength + 2 else currentSideLength
  }

  function GetStartingPositionOfNextSide(lastSide: Side, position: Point): (start: Point)
    ensures Abs(start.x - position.x) + Abs(start.y - position.y) == 1
  {
    match lastSide
    case Top => Point(position.x + 1, position.y)
    case Right => Point(position.x - 1, position.y)
    case Bottom => Point(position.x, position.y - 1)
    case Left => Point(position.x + 1, position.y)
  }

  function GetNextSide(currentSide: Side): Side
  {
    match currentSide
    case Top => Right
    case Right => Bottom
    case Bottom => Left
    case Left => Top
  }

  /**
   * The sides follow one another clockwise: the next side's direction of
   * travel is the current one turned a quarter clockwise, and four changes
   * come back to the same side.
   */
  lemma SidesCycle(side: Side, p: Point)
    ensures var d := GetNextPositionOnCurrentSide(side, p);
            var e := GetNextPositionOnCurrentSide(GetNextSide(side), p);
            Point(e.x - p.x, e.y - p.y) == SpiralOrder.TurnRight(Point(d.x - p.x, d.y - p.y))
    ensures GetNextSide(side) != side
    ensures GetNextSide(GetNextSide(GetNextSide(GetNextSide(side)))) == side
  {
  }

  /**
   * One lap of four side changes, from whichever side, lengthens the sides
   * by exactly two: from 2k on shell k to 2k + 2 on shell k + 1.
   */
  lemma SideLengthPerLap(side: Side, length: int)
    ensures var s1 := GetNextSide(side);
            var s2 := GetNextSide(s1);
            var s3 := GetNextSide(s2);
            GetNextSideLength(s3, GetNextSideLength(s2, GetNextSideLength(s1, GetNextSideLength(side, length)))) == length + 2
  {
  }

  /** The part of a spark that moves: everything but the grid and the value counter. */
  datatype SparkState = SparkState(side: Side, position: Point, sideLength: int, amountDrawnThisSide: int)

  /**
   * The move `Advance` makes after writing a cell: always to a neighbouring
   * cell, with a side length that never shrinks and a count of drawn cells
   * that either grows by one or starts again on a new side.
   */
  function Step(s: SparkState): (t: SparkState)
    ensures Abs(t.position.x - s.position.x) + Abs(t.position.y - s.position.y) == 1
    ensures s.sideLength <= t.sideLength
    ensures t.amountDrawnThisSide == s.amountDrawnThisSide + 1 || (t.amountDrawnThisSide == 0 && t.side != s.side)
  {
    var drawn := s.amountDrawnThisSide + 1;
    if drawn >= s.sideLength then
      SparkState(GetNextSide(s.side), GetStartingPositionOfNextSide(s.side, s.position), GetNextSideLength(s.side, s.sideLength), 0)
    else
      SparkState(s.side, GetNextPositionOnCurrentSide(s.side, s.position), s.sideLength, drawn)
  }

  /**
   * The state of a spark about to write the origin-relative point `p` of a
   * grid whose origin is `origin`: the side of `p`'s shell holding it, the
   * shell's side length 2k and the cells of that side already drawn.  At the
   * origin it is the starting state: top side, length 0.
   */
  function Expected(origin: Point, p: Point): (s: SparkState)
    ensures s.position == Add(origin, p)
    ensures 0 <= s.amountDrawnThisSide <= s.sideLength
    ensures p != Point(0, 0) ==> s.amountDrawnThisSide < s.sideLength
  {
    var k: int := ShellIndexOf(p);
    var shell := SpiralGenerator.Shell(k);
    if p == Point(0, 0) then SparkState(Top, Add(origin, p), 0, 0)
    else if shell.IsOnRight(p.x, p.y) then SparkState(Right, Add(origin, p), 2 * k, p.y - shell.RightStartY())
    else if shell.IsOnBottom(p.x, p.y) then SparkState(Bottom, Add(origin, p), 2 * k, shell.BottomStartX() - p.x)
    else if shell.IsOnLeft(p.x, p.y) then SparkState(Left, Add(origin, p), 2 * k, shell.LeftStartY() - p.y)
    else SparkState(Top, Add(origin, p), 2 * k, p.x - shell.TopStartX())
  }

  /** One move of the spark takes the state for a point to the state for the spiral's next point. */
  lemma StepFollowsWalk(origin: Point, p: Point)
    ensures Step(Expected(origin, p)) == Expected(origin, SpiralOrder.NextPoint(p))
  {
    var k: int := ShellIndexOf(p);
    var n := SpiralOrder.NextPoint(p);
    if p != Point(0, 0) {
      SpiralGenerator.ShellSidesPartition(k, p.x, p.y);
      if p == Point(k, -k) {
        assert ShellIndexOf(n) == k + 1;
      } else {
        assert ShellIndexOf(n) == k;
        SpiralGenerator.ShellSidesPartition(k, n.x, n.y);
      }
    }
  }

  /** The spark's cell is in the grid, and one move takes it to the spiral's next cell. */
  lemma SparkMoves(spiral: Spiral, p: Point, i: int)
    requires spiral.Valid() && spiral.size % 2 == 1
    requires SpiralOrder.IndexOf(p) == i < spiral.numbers.Length0 * spiral.numbers.Length1
    ensures spiral.InGrid(p) && SpiralOrder.IndexOf(SpiralOrder.NextPoint(p)) == i + 1
    ensures Step(Expected(spiral.origin, p)) == Expected(spiral.origin, SpiralOrder.NextPoint(p))
  {
    SpiralOrder.InGridIffIndexBelow(spiral, p);
    SpiralOrder.NextPointIndex(p);
    StepFollowsWalk(spiral.origin, p);
  }

  class Spark {
    var side: Side
    var position: Point
    var sideLength: int
    var amountDrawnThisSide: int
    const spiral: Spiral
    var nextValue: int

    constructor (side: Side, position: Point, sideLength: int, drawnThisSide: int, spiral: Spiral)
      ensures this.side == side && this.position == position && this.sideLength == sideLength
      ensures amountDrawnThisSide == drawnThisSide && this.spiral == spiral && nextValue == 0
    {
      this.side := side;
      this.position := position;
      this.sideLength := sideLength;
      amountDrawnThisSide := drawnThisSide;
      this.spiral := spiral;
      nextValue := 0;
    }

    function State(): SparkState
      reads this
    {
      SparkState(side, position, sideLength, amountDrawnThisSide)
    }

    /**
     * Writes the next value at the current position, then moves: along the
     * side while it is not finished, or to the start of the next side.
     */
    method Advance()
      requires 0 <= position.y < spiral.numbers.Length0 && 0 <= position.x < spiral.numbers.Length1
      modifies this, spiral.numbers
      ensures State() == Step(old(State())) && nextValue == old(nextValue) + 1
      ensures spiral.numbers[old(position).y, old(position).x] == spiral.UpToLimit(old(nextValue))
      ensures forall r, c | 0 <= r < spiral.numbers.Length0 && 0 <= c < spiral.numbers.Length1 && (r, c) != (old(position).y, old(position).x) ::
                spiral.numbers[r, c] == old(spiral.numbers[r, c])
    {
      spiral.SetValueAbsolute(position.x, position.y, nextValue);
      nextValue := nextValue + 1;
      amountDrawnThisSide := amountDrawnThisSide + 1;
      if amountDrawnThisSide >= sideLength {
        sideLength := GetNextSideLength(side, sideLength);
        position := GetStartingPositionOfNextSide(side, position);
        side := GetNextSide(side);
        amountDrawnThisSide := 0;
      } else {
        position := GetNextPositionOnCurrentSide(side, position);
      }
    }
  }

  method Generate(spiralTo: int) returns (spiral: Spiral)
    requires spiralTo >= 0
    ensures fresh(spiral) && fresh(spiral.numbers) && spiral.Valid()
    ensures spiral.size == Spiral.GetSpiralSize(spiralTo) && spiral.spiralTo == spiralTo
    ensures SpiralGenerator.Complete(spiral)
  {
    spiral := new Spiral(spiralTo);
    PopulateSpiral(spiral);
  }

  /**
   * Starts a spark at the origin on a top side of length 0 and advances it
   * once per cell; the i-th advance writes the cell whose index is i.
   */
  method PopulateSpiral(spiral: Spiral)
    requires spiral.Valid() && spiral.size % 2 == 1
    modifies spiral.numbers
    ensures SpiralGenerator.Complete(spiral)
  {
    var spark := new Spark(Top, spiral.origin, 0, 0, spiral);
    var i := 0;
    ghost var cell := Point(0, 0);
    while i < spiral.numbers.Length0 * spiral.numbers.Length1
      invariant 0 <= i <= spiral.numbers.Length0 * spiral.numbers.Length1
      invariant spark.spiral == spiral && spark.nextValue == i
      invariant SpiralOrder.IndexOf(cell) == i
      invariant spark.State() == Expected(spiral.origin, cell)
      invariant forall r, c | 0 <= r < spiral.numbers.Length0 && 0 <= c < spiral.numbers.Length1 ::
                  spiral.numbers[r, c] == SpiralOrder.Written(spiral, spiral.CellPoint(r, c), i, old(spiral.numbers[r, c]))
    {
      SparkMoves(spiral, cell, i);
      ghost var at := spark.position;
      assert at == Add(spiral.origin, cell);
      label StepStart:
      spark.Advance();
      forall r, c | 0 <= r < spiral.numbers.Length0 && 0 <= c < spiral.numbers.Length1
        ensures spiral.numbers[r, c] == SpiralOrder.Written(spiral, spiral.CellPoint(r, c), i + 1, old(spiral.numbers[r, c]))
      {
        var q := spiral.CellPoint(r, c);
        CellPointIs(spiral, r, c, cell);
        SpiralOrder.WriteNextCell(spiral, cell, i, q, old@StepStart(spiral.numbers[r, c]), spiral.numbers[r, c], old(spiral.numbers[r, c]));
      }
      cell := SpiralOrder.NextPoint(cell);
      i := i + 1;
    }
    forall r, c | 0 <= r < spiral.numbers.Length0 && 0 <= c < spiral.numbers.Length1
      ensures spiral.numbers[r, c] == SpiralGenerator.Final(spiral, spiral.CellPoint(r, c))
    {
      SpiralOrder.WrittenAll(spiral, r, c, old(spiral.numbers[r, c]));
    }
  }
}
