/**
 * The refined light-cycle generator: the cycle carries its bearings (a
 * position and a direction of travel) and a rotation; after each write it
 * takes the bearings reached by rotating, unless the cell they lead to is
 * occupied or the cycle stands on the origin, in which case it moves
 * straight ahead.  A cell is occupied when it holds a non-zero value or is
 * the origin.  Positions are absolute grid coordinates, y growing downward.
 */
module LightCycleGeneratorImproved {
  import opened Geometry
  import opened Spirals
  import SpiralGenerator
  import SpiralOrder
  import LightCycleGenerator

  datatype Rotation = Left | Right

  /** The four directions of travel, each one unit step. */
  datatype Direction = RIGHT | LEFT | DOWN | UP
  {
    function DeltaX(): int
    {
      match this
      case RIGHT => 1
      case LEFT => -1
      case DOWN => 0
      case UP => 0
    }

    function DeltaY(): int
    {
      match this
      case RIGHT => 0
      case LEFT => 0
      case DOWN => 1
      case UP => -1
    }

    /** The unit step of this direction. */
    function Delta(): (d: Point)
      ensures Abs(d.x) + Abs(d.y) == 1
    {
      Point(DeltaX(), DeltaY())
    }

    /** The point one step ahead of `point` in this direction. */
    function MoveAhead(point: Point): (next: Point)
      ensures next == Add(point, Delta())
      ensures Abs(next.x - point.x) + Abs(next.y - point.y) == 1
    {
      Point(point.x + DeltaX(), point.y + DeltaY())
    }

    /**
     * The direction after a quarter turn: to the right (clockwise on a grid
     * whose y grows downward) or to the left.
     */
    function Rotate(rotation: Rotation): (turned: Direction)
      ensures rotation == Right ==> turned.Delta() == SpiralOrder.TurnRight(Delta())
      ensures rotation == Left ==> SpiralOrder.TurnRight(turned.Delta()) == Delta()
    {
      match (this, rotation)
      case (RIGHT, Left) => UP
      case (RIGHT, Right) => DOWN
      case (LEFT, Left) => DOWN
      case (LEFT, Right) => UP
      case (DOWN, Left) => RIGHT
      case (DOWN, Right) => LEFT
      case (UP, Left) => LEFT
      case (UP, Right) => RIGHT
    }
  }

  /** The rotation the other way. */
  function Opposite(rotation: Rotation): Rotation
  {
    match rotation
    case Left => Right
    case Right => Left
  }

  /**
   * A left turn undoes a right turn and the other way round; a turn always
   * changes the direction, and four turns the same way come back to it.
   */
  lemma RotationsCycle(d: Direction, rotation: Rotation)
    ensures d.Rotate(rotation).Rotate(Opposite(rotation)) == d
    ensures d.Rotate(rotation) != d
    ensures d.Rotate(rotation).Rotate(rotation).Rotate(rotation).Rotate(rotation) == d
  {
  }

  /** A direction is determined by its unit step. */
  lemma DeltaInjective(d: Direction, e: Direction)
    requires d.Delta() == e.Delta()
    ensures d == e
  {
  }

  /** A position together with the direction of travel. */
  datatype Bearings = Bearings(direction: Direction, position: Point)
  {
    /** One step straight ahead, keeping the direction. */
    function Move(): (moved: Bearings)
      ensures moved.direction == direction
      ensures moved.position == Add(position, direction.Delta())
      ensures Abs(moved.position.x - position.x) + Abs(moved.position.y - position.y) == 1
    {
      Bearings(direction, direction.MoveAhead(position))
    }

    /** Turns first, then takes one step in the new direction. */
    function MoveWithRotation(rotation: Rotation): (moved: Bearings)
      ensures rotation == Right ==> moved.direction.Delta() == SpiralOrder.TurnRight(direction.Delta())
      ensures rotation == Left ==> SpiralOrder.TurnRight(moved.direction.Delta()) == direction.Delta()
      ensures moved.position == Add(position, moved.direction.Delta())
      ensures Abs(moved.position.x - position.x) + Abs(moved.position.y - position.y) == 1
    {
      var newDirection := direction.Rotate(rotation);
      Bearings(newDirection, newDirection.MoveAhead(position))
    }
  }

  /**
   * The bearings of a cycle driving the spiral match the first light-cycle
   * generator's step and position: moving straight is a step by the current
   * direction, turning right a step by that direction turned clockwise.
   */
  lemma BearingsMoveLikeCycle(b: Bearings, turn: bool)
    ensures var next := if turn then b.MoveWithRotation(Right) else b.Move();
            (next.direction.Delta(), next.position) == LightCycleGenerator.Move(b.direction.Delta(), b.position, turn)
  {
  }

  class LightCycle {
    var bearings: Bearings
    var rotation: Rotation
    const spiral: Spiral
    var nextValue: int

    /** A cycle on the origin, leaving it in `leaveOriginDirection`, about to write 0. */
    constructor (spiral: Spiral, leaveOriginDirection: Direction, rotation: Rotation)
      ensures bearings == Bearings(leaveOriginDirection, spiral.origin)
      ensures this.rotation == rotation && this.spiral == spiral && nextValue == 0
    {
      this.spiral := spiral;
      bearings := Bearings(leaveOriginDirection, spiral.origin);
      nextValue := 0;
      this.rotation := rotation;
    }

    /**
     * Writes the next value at the current position; then moves straight on
     * from the origin, and elsewhere takes the rotated bearings unless the
     * cell they reach is occupied, moving straight on in that case.
     */
    method Drive()
      requires 0 <= bearings.position.y < spiral.numbers.Length0 && 0 <= bearings.position.x < spiral.numbers.Length1
      requires bearings.position != spiral.origin ==>
                 var t := bearings.MoveWithRotation(rotation).position;
                 0 <= t.y < spiral.numbers.Length0 && 0 <= t.x < spiral.numbers.Length1
      modifies this, spiral.numbers
      ensures nextValue == old(nextValue) + 1 && rotation == old(rotation)
      ensures forall r, c | 0 <= r < spiral.numbers.Length0 && 0 <= c < spiral.numbers.Length1 ::
                spiral.numbers[r, c] ==
                  if (r, c) == (old(bearings).position.y, old(bearings).position.x) then spiral.UpToLimit(old(nextValue))
                  else old(spiral.numbers[r, c])
      ensures var turned := old(bearings).MoveWithRotation(rotation);
              var t := turned.position;
              bearings ==
                if old(bearings).position != spiral.origin && old(spiral.numbers[t.y, t.x]) == 0 && t != spiral.origin
                then turned
                else old(bearings).Move()
    {
      spiral.SetValueAbsolute(bearings.position.x, bearings.position.y, nextValue);
      nextValue := nextValue + 1;
      if bearings.position == spiral.origin {
        bearings := bearings.Move();
      } else {
        var newBearingsIfTurning := bearings.MoveWithRotation(rotation);
        bearings := if IsOccupied(newBearingsIfTurning.position) then bearings.Move() else newBearingsIfTurning;
      }
    }

    /** A cell is occupied when it holds a non-zero value or is the origin. */
    predicate IsOccupied(position: Point)
      reads spiral.numbers
      requires 0 <= position.y < spiral.numbers.Length0 && 0 <= position.x < spiral.numbers.Length1
    {
      spiral.GetValueAbsolute(position.x, position.y) != 0 || position == spiral.origin
    }
  }

  /**
   * A cycle at the cell with index i, heading the way the spiral enters that
   * cell, turns right exactly when the first light-cycle generator's cycle
   * would: off the origin, onto a cell holding 0 that is not the origin.
   * Its bearings after the move are those of the spiral's next cell.
   */
  lemma DriveStep(spiral: Spiral, p: Point, i: int, b: Bearings, value: int)
    requires spiral.Valid() && spiral.size % 2 == 1
    requires SpiralOrder.IndexOf(p) == i < spiral.numbers.Length0 * spiral.numbers.Length1
    requires b.position == Add(spiral.origin, p) && b.direction.Delta() == SpiralOrder.ArrivalStep(p)
    requires i != 0 ==> var t := b.MoveWithRotation(Right).position;
                        0 <= t.y < spiral.numbers.Length0 && 0 <= t.x < spiral.numbers.Length1 &&
                        value == SpiralOrder.Written(spiral, spiral.CellPoint(t.y, t.x), i, 0)
    ensures SpiralOrder.IndexOf(SpiralOrder.NextPoint(p)) == i + 1
    ensures var turned := b.MoveWithRotation(Right);
            var next := if b.position != spiral.origin && value == 0 && turned.position != spiral.origin then turned else b.Move();
            next.position == Add(spiral.origin, SpiralOrder.NextPoint(p)) &&
            next.direction.Delta() == SpiralOrder.ArrivalStep(SpiralOrder.NextPoint(p))
  {
    var step := b.direction.Delta();
    var turn := b.position != spiral.origin && value == 0 && b.MoveWithRotation(Right).position != spiral.origin;
    OnOriginIffFirst(spiral, p, i, b.position);
    assert b.MoveWithRotation(Right).position == Add(b.position, SpiralOrder.TurnRight(step));
    assert turn == (i != 0 && value == 0 && Add(b.position, SpiralOrder.TurnRight(step)) != spiral.origin);
    LightCycleGenerator.DriveStep(spiral, p, i, b.position, step, value);
    BearingsMoveLikeCycle(b, turn);
  }

  /**
   * `DriveStep` with the drive's resulting bearings passed in as `after`.
   * It states nothing beyond `DriveStep`; `DriveOnce` calls it so that its
   * proof deals with a plain value instead of the if-expression, which
   * keeps that proof small enough to verify quickly.
   */
  lemma DriveLands(spiral: Spiral, p: Point, i: int, b: Bearings, value: int, after: Bearings)
    requires spiral.Valid() && spiral.size % 2 == 1
    requires SpiralOrder.IndexOf(p) == i < spiral.numbers.Length0 * spiral.numbers.Length1
    requires b.position == Add(spiral.origin, p) && b.direction.Delta() == SpiralOrder.ArrivalStep(p)
    requires i != 0 ==> var t := b.MoveWithRotation(Right).position;
                        0 <= t.y < spiral.numbers.Length0 && 0 <= t.x < spiral.numbers.Length1 &&
                        value == SpiralOrder.Written(spiral, spiral.CellPoint(t.y, t.x), i, 0)
    requires var turned := b.MoveWithRotation(Right);
             after == if b.position != spiral.origin && value == 0 && turned.position != spiral.origin then turned else b.Move()
    ensures SpiralOrder.IndexOf(SpiralOrder.NextPoint(p)) == i + 1
    ensures after.position == Add(spiral.origin, SpiralOrder.NextPoint(p))
    ensures after.direction.Delta() == SpiralOrder.ArrivalStep(SpiralOrder.NextPoint(p))
  {
    DriveStep(spiral, p, i, b, value);
  }

  /** The cycle stands on the origin exactly before its first drive. */
  lemma OnOriginIffFirst(spiral: Spiral, p: Point, i: int, at: Point)
    requires SpiralOrder.IndexOf(p) == i && at == Add(spiral.origin, p)
    ensures at == spiral.origin <==> i == 0
  {
    if i == 0 {
      SpiralOrder.IndexInjective(p, Point(0, 0));
    }
  }

  /**
   * A cycle heading the way the spiral enters the cell with index i stands
   * inside the grid, and away from the origin so does the cell it would
   * turn into.
   */
  lemma DriveStaysInGrid(spiral: Spiral, p: Point, i: int, b: Bearings)
    requires spiral.Valid() && spiral.size % 2 == 1
    requires SpiralOrder.IndexOf(p) == i < spiral.numbers.Length0 * spiral.numbers.Length1
    requires b.position == Add(spiral.origin, p) && b.direction.Delta() == SpiralOrder.ArrivalStep(p)
    ensures 0 <= b.position.y < spiral.numbers.Length0 && 0 <= b.position.x < spiral.numbers.Length1
    ensures b.position != spiral.origin ==>
              var t := b.MoveWithRotation(Right).position;
              0 <= t.y < spiral.numbers.Length0 && 0 <= t.x < spiral.numbers.Length1
  {
    OnOriginIffFirst(spiral, p, i, b.position);
    LightCycleGenerator.DriveStaysInGrid(spiral, p, i, b.position, b.direction.Delta());
  }

  method Generate(spiralTo: int) returns (spiral: Spiral)
    requires spiralTo >= 0
    ensures fresh(spiral) && fresh(spiral.numbers) && spiral.Valid()
    ensures spiral.size == Spiral.GetSpiralSize(spiralTo) && spiral.spiralTo == spiralTo
    ensures SpiralGenerator.Complete(spiral)
  {
    spiral := new Spiral(spiralTo);
    PopulateSpiral(spiral);
  }

  /**
   * One drive of a right-rotating cycle heading the way the spiral enters
   * the cell with index i, on a grid holding exactly the values below i: it
   * writes i there and takes the bearings of the spiral's next cell.
   */
  method DriveOnce(lightCycle: LightCycle, ghost cell: Point, ghost i: int)
    requires lightCycle.spiral.Valid() && lightCycle.spiral.size % 2 == 1
    requires lightCycle.nextValue == i && SpiralOrder.IndexOf(cell) == i < lightCycle.spiral.numbers.Length0 * lightCycle.spiral.numbers.Length1
    requires lightCycle.rotation == Right
    requires lightCycle.bearings.position == Add(lightCycle.spiral.origin, cell)
    requires lightCycle.bearings.direction.Delta() == SpiralOrder.ArrivalStep(cell)
    requires forall r, c {:trigger SpiralOrder.Written(lightCycle.spiral, lightCycle.spiral.CellPoint(r, c), i, 0)}
               | 0 <= r < lightCycle.spiral.numbers.Length0 && 0 <= c < lightCycle.spiral.numbers.Length1 ::
               lightCycle.spiral.numbers[r, c] == SpiralOrder.Written(lightCycle.spiral, lightCycle.spiral.CellPoint(r, c), i, 0)
    modifies lightCycle, lightCycle.spiral.numbers
    ensures lightCycle.nextValue == i + 1 && SpiralOrder.IndexOf(SpiralOrder.NextPoint(cell)) == i + 1
    ensures lightCycle.rotation == Right
    ensures lightCycle.bearings.position == Add(lightCycle.spiral.origin, SpiralOrder.NextPoint(cell))
    ensures lightCycle.bearings.direction.Delta() == SpiralOrder.ArrivalStep(SpiralOrder.NextPoint(cell))
    ensures forall r, c | 0 <= r < lightCycle.spiral.numbers.Length0 && 0 <= c < lightCycle.spiral.numbers.Length1 ::
              lightCycle.spiral.numbers[r, c] ==
                if lightCycle.spiral.CellPoint(r, c) == cell then lightCycle.spiral.UpToLimit(i) else old(lightCycle.spiral.numbers[r, c])
  {
    var spiral := lightCycle.spiral;
    ghost var b := lightCycle.bearings;
    DriveStaysInGrid(spiral, cell, i, b);
    OnOriginIffFirst(spiral, cell, i, b.position);
    ghost var turnCell := b.MoveWithRotation(Right).position;
    ghost var value := if i != 0 then spiral.numbers[turnCell.y, turnCell.x] else 0;
    assert i != 0 ==> value == SpiralOrder.Written(spiral, spiral.CellPoint(turnCell.y, turnCell.x), i, 0);
    lightCycle.Drive();
    forall r, c | 0 <= r < lightCycle.spiral.numbers.Length0 && 0 <= c < lightCycle.spiral.numbers.Length1
      ensures lightCycle.spiral.numbers[r, c] ==
                if lightCycle.spiral.CellPoint(r, c) == cell then lightCycle.spiral.UpToLimit(i) else old(lightCycle.spiral.numbers[r, c])
    {
      CellPointIs(spiral, r, c, cell);
    }
    DriveLands(spiral, cell, i, b, value, lightCycle.bearings);
  }

  /**
   * Drives a cycle leaving the origin rightwards and rotating right once per
   * cell of an all-zero grid; the i-th drive writes the cell whose index is
   * i, arriving there in the direction the spiral enters it.
   */
  method PopulateSpiral(spiral: Spiral)
    requires spiral.Valid() && spiral.size % 2 == 1
    requires forall r, c | 0 <= r < spiral.numbers.Length0 && 0 <= c < spiral.numbers.Length1 :: spiral.numbers[r, c] == 0
    modifies spiral.numbers
    ensures SpiralGenerator.Complete(spiral)
  {
    var lightCycle := new LightCycle(spiral, RIGHT, Right);
    var i := 0;
    ghost var cell := Point(0, 0);
    while i < spiral.numbers.Length0 * spiral.numbers.Length1
      invariant 0 <= i <= spiral.numbers.Length0 * spiral.numbers.Length1
      invariant lightCycle.spiral == spiral && lightCycle.nextValue == i && lightCycle.rotation == Right
      invariant SpiralOrder.IndexOf(cell) == i
      invariant lightCycle.bearings.position == Add(spiral.origin, cell)
      invariant lightCycle.bearings.direction.Delta() == SpiralOrder.ArrivalStep(cell)
      invariant forall r, c | 0 <= r < spiral.numbers.Length0 && 0 <= c < spiral.numbers.Length1 ::
                  spiral.numbers[r, c] == SpiralOrder.Written(spiral, spiral.CellPoint(r, c), i, 0)
    {
      label DriveStart:
      DriveOnce(lightCycle, cell, i);
      forall r, c | 0 <= r < spiral.numbers.Length0 && 0 <= c < spiral.numbers.Length1
        ensures spiral.numbers[r, c] == SpiralOrder.Written(spiral, spiral.CellPoint(r, c), i + 1, 0)
      {
        SpiralOrder.WriteNextCell(spiral, cell, i, spiral.CellPoint(r, c), old@DriveStart(spiral.numbers[r, c]), spiral.numbers[r, c], 0);
      }
      cell := SpiralOrder.NextPoint(cell);
      i := i + 1;
    }
    forall r, c | 0 <= r < spiral.numbers.Length0 && 0 <= c < spiral.numbers.Length1
      ensures spiral.numbers[r, c] == SpiralGenerator.Final(spiral, spiral.CellPoint(r, c))
    {
      SpiralOrder.WrittenAll(spiral, r, c, 0);
    }
  }
}
