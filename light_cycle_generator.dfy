/**
 * The light-cycle generator: a cursor drives around the grid writing
 * consecutive values, always trying to turn right and going straight on
 * only when the cell to its right is taken.  A cell is taken when it holds
 * a non-zero value or is the origin.  Positions are absolute grid
 * coordinates; the side names the direction of travel (top: rightwards,
 * right: downwards, bottom: leftwards, left: upwards).
 */
module LightCycleGenerator {
  import opened Geometry
  import opened Spirals
  import SpiralGenerator
  import SpiralOrder

  datatype Side = Top | Right | Bottom | Left

  /** The unit vector of travel along a side. */
  function SideStep(side: Side): Point
  {
    match side
    case Top => Point(1, 0)
    case Right => Point(0, 1)
    case Bottom => Point(-1, 0)
    case Left => Point(0, -1)
  }

  /**
   * A cycle at `position` moving by `step` goes one cell further: turned a
   * quarter clockwise when `turn` holds, straight on otherwise.  The result
   * is the new step and the new position.
   */
  function Move(step: Point, position: Point, turn: bool): (Point, Point)
  {
    var next := if turn then SpiralOrder.TurnRight(step) else step;
    (next, Add(position, next))
  }

  class LightCycle {
    var side: Side
    var position: Point
    const spiral: Spiral
    var nextValue: int

    /** A cycle at the origin heading right, about to write 0. */
    constructor (spiral: Spiral)
      ensures side == Top && position == spiral.origin && this.spiral == spiral && nextValue == 0
    {
      side := Top;
      position := spiral.origin;
      this.spiral := spiral;
      nextValue := 0;
    }

    /**
     * Writes the next value at the current position and moves one cell:
     * straight on after the first write or when the cell to the right is
     * taken, and otherwise turning right.
     */
    method DriveClockwise()
      requires 0 <= position.y < spiral.numbers.Length0 && 0 <= position.x < spiral.numbers.Length1
      requires nextValue != 0 ==> var t := GetTurnRightPosition();
                                  0 <= t.y < spiral.numbers.Length0 && 0 <= t.x < spiral.numbers.Length1
      modifies this, spiral.numbers
      ensures nextValue == old(nextValue) + 1
      ensures forall r, c | 0 <= r < spiral.numbers.Length0 && 0 <= c < spiral.numbers.Length1 ::
                spiral.numbers[r, c] == if (r, c) == (old(position).y, old(position).x) then spiral.UpToLimit(old(nextValue)) else old(spiral.numbers[r, c])
      ensures var t := Add(old(position), SpiralOrder.TurnRight(SideStep(old(side))));
              (SideStep(side), position) ==
                Move(SideStep(old(side)), old(position), old(nextValue) != 0 && old(spiral.numbers[t.y, t.x]) == 0 && t != spiral.origin)
    {
      spiral.SetValueAbsolute(position.x, position.y, nextValue);
      nextValue := nextValue + 1;
      if nextValue == 1 || RightTurnIsBlocked() {
        position := GetStraightAheadPosition();
      } else {
        position := GetTurnRightPosition();
        side := GetNextSide();
      }
    }

    predicate RightTurnIsBlocked()
      reads this, spiral.numbers
      requires var t := GetTurnRightPosition();
               0 <= t.y < spiral.numbers.Length0 && 0 <= t.x < spiral.numbers.Length1
    {
      !IsEmpty(GetTurnRightPosition())
    }

    /** A cell is empty when it holds 0 and is not the origin. */
    predicate IsEmpty(position: Point)
      reads spiral.numbers
      requires 0 <= position.y < spiral.numbers.Length0 && 0 <= position.x < spiral.numbers.Length1
    {
      spiral.GetValueAbsolute(position.x, position.y) == 0 && position != spiral.origin
    }

    /** The cell reached by turning right: one unit step in the next side's direction. */
    function GetTurnRightPosition(): (move: Point)
      reads this
      ensures move == Add(position, SpiralOrder.TurnRight(SideStep(side)))
    {
      GetMoveForSide(GetNextSide())
    }

    /** The cell straight ahead: one unit step in the current side's direction. */
    function GetStraightAheadPosition(): (move: Point)
      reads this
      ensures move == Add(position, SideStep(side))
    {
      GetMoveForSide(side)
    }

    /** One unit step from the current position in the direction of travel of `side`. */
    function GetMoveForSide(side: Side): (move: Point)
      reads this
      ensures move == Add(position, SideStep(side))
      ensures Abs(move.x - position.x) + Abs(move.y - position.y) == 1
    {
      match side
      case Top => Point(position.x + 1, position.y)
      case Right => Point(position.x, position.y + 1)
      case Bottom => Point(position.x - 1, position.y)
      case Left => Point(position.x, position.y - 1)
    }

    /** The side after a right turn: its direction is the current one turned clockwise. */
    function GetNextSide(): (next: Side)
      reads this
      ensures SideStep(next) == SpiralOrder.TurnRight(SideStep(side))
    {
      match side
      case Top => Right
      case Right => Bottom
      case Bottom => Left
      case Left => Top
    }
  }

  /**
   * A cycle at the cell with index i, moving as the spiral enters that
   * cell, stands inside the grid, and after the first drive so does the
   * cell to its right.
   */
  lemma DriveStaysInGrid(spiral: Spiral, p: Point, i: int, at: Point, step: Point)
    requires spiral.Valid() && spiral.size % 2 == 1
    requires SpiralOrder.IndexOf(p) == i < spiral.numbers.Length0 * spiral.numbers.Length1
    requires at == Add(spiral.origin, p) && step == SpiralOrder.ArrivalStep(p)
    ensures 0 <= at.y < spiral.numbers.Length0 && 0 <= at.x < spiral.numbers.Length1
    ensures i != 0 ==> var t := Add(at, SpiralOrder.TurnRight(step));
                       0 <= t.y < spiral.numbers.Length0 && 0 <= t.x < spiral.numbers.Length1
  {
    TurnInGrid(spiral, p, i);
    if i != 0 {
      assert Add(at, SpiralOrder.TurnRight(step)) == Add(spiral.origin, Add(p, SpiralOrder.TurnRight(step)));
    }
  }

  /**
   * The cell with index i, and after the first drive the cell to its right
   * (turning from the direction the spiral enters it), lie inside the grid.
   */
  lemma TurnInGrid(spiral: Spiral, p: Point, i: int)
    requires spiral.Valid() && spiral.size % 2 == 1
    requires SpiralOrder.IndexOf(p) == i < spiral.numbers.Length0 * spiral.numbers.Length1
    ensures spiral.InGrid(p)
    ensures i != 0 ==> spiral.InGrid(Add(p, SpiralOrder.TurnRight(SpiralOrder.ArrivalStep(p))))
  {
    SpiralOrder.InGridIffIndexBelow(spiral, p);
    if i != 0 {
      SpiralOrder.TurnRightRule(p);
      SpiralOrder.InGridIffShellWithin(spiral, p);
      SpiralOrder.InGridIffShellWithin(spiral, Add(p, SpiralOrder.TurnRight(SpiralOrder.ArrivalStep(p))));
    }
  }

  /**
   * Before the drive from the cell with index i (not the first), the cell
   * to its right is free, holding 0 and not being the origin, exactly when
   * its index is higher.
   */
  lemma TurnIsFree(spiral: Spiral, p: Point, i: int, value: int)
    requires i >= 1 && SpiralOrder.IndexOf(p) == i
    requires value == SpiralOrder.Written(spiral, Add(p, SpiralOrder.TurnRight(SpiralOrder.ArrivalStep(p))), i, 0)
    ensures var turn := Add(p, SpiralOrder.TurnRight(SpiralOrder.ArrivalStep(p)));
            (value == 0 && turn != Point(0, 0)) <==> SpiralOrder.IndexOf(turn) > i
  {
    var turn := Add(p, SpiralOrder.TurnRight(SpiralOrder.ArrivalStep(p)));
    SpiralOrder.ArrivalIsUnit(p);
    assert turn != p;
    SpiralOrder.FreeIffAbove(spiral, turn, p, i, value);
  }

  /**
   * Turning right exactly when the cell to the right has a higher index,
   * and never on the first move, takes a cycle entering the cell with index
   * i to the next cell of the spiral, entering it the way the spiral does.
   */
  lemma DriveFollowsWalk(origin: Point, p: Point, i: int)
    requires SpiralOrder.IndexOf(p) == i
    ensures var d := SpiralOrder.ArrivalStep(p);
            var next := SpiralOrder.NextPoint(p);
            Move(d, Add(origin, p), i != 0 && SpiralOrder.IndexOf(Add(p, SpiralOrder.TurnRight(d))) > i)
              == (SpiralOrder.ArrivalStep(next), Add(origin, next))
  {
    var d := SpiralOrder.ArrivalStep(p);
    var q := Add(p, SpiralOrder.TurnRight(d));
    if i == 0 {
      SpiralOrder.IndexInjective(p, Point(0, 0));
    } else {
      assert p != Point(0, 0);
      SpiralOrder.TurnRightRule(p);
      if SpiralOrder.IndexOf(q) > i {
        assert Move(d, Add(origin, p), true) == (SpiralOrder.TurnRight(d), Add(origin, q));
      } else {
        assert Move(d, Add(origin, p), false) == (d, Add(origin, Add(p, d)));
      }
    }
  }

  /**
   * One drive from the cell with index i, made by a cycle at `at` moving by
   * `step` as the spiral enters that cell: given the value the grid holds at
   * the cell to its right (written as far as index i), the cycle's choice to
   * turn takes it to the spiral's next cell, entering it the way the spiral
   * does.
   */
  lemma DriveStep(spiral: Spiral, p: Point, i: int, at: Point, step: Point, value: int)
    requires spiral.Valid() && spiral.size % 2 == 1
    requires SpiralOrder.IndexOf(p) == i < spiral.numbers.Length0 * spiral.numbers.Length1
    requires at == Add(spiral.origin, p) && step == SpiralOrder.ArrivalStep(p)
    requires i != 0 ==> var t := Add(at, SpiralOrder.TurnRight(step));
                        0 <= t.y < spiral.numbers.Length0 && 0 <= t.x < spiral.numbers.Length1 &&
                        value == SpiralOrder.Written(spiral, spiral.CellPoint(t.y, t.x), i, 0)
    ensures SpiralOrder.IndexOf(SpiralOrder.NextPoint(p)) == i + 1
    ensures Move(step, at, i != 0 && value == 0 && Add(at, SpiralOrder.TurnRight(step)) != spiral.origin)
              == (SpiralOrder.ArrivalStep(SpiralOrder.NextPoint(p)), Add(spiral.origin, SpiralOrder.NextPoint(p)))
  {
    TurnChoice(spiral, p, i, at, step, value);
    DriveFollowsWalk(spiral.origin, p, i);
    SpiralOrder.NextPointIndex(p);
  }

  /**
   * The cycle's test for a right turn, made from the grid written as far as
   * index i, holds exactly when the cell to the right has a higher index.
   */
  lemma TurnChoice(spiral: Spiral, p: Point, i: int, at: Point, step: Point, value: int)
    requires SpiralOrder.IndexOf(p) == i
    requires at == Add(spiral.origin, p) && step == SpiralOrder.ArrivalStep(p)
    requires i != 0 ==> var t := Add(at, SpiralOrder.TurnRight(step));
                        value == SpiralOrder.Written(spiral, spiral.CellPoint(t.y, t.x), i, 0)
    ensures (i != 0 && value == 0 && Add(at, SpiralOrder.TurnRight(step)) != spiral.origin)
              == (i != 0 && SpiralOrder.IndexOf(Add(p, SpiralOrder.TurnRight(step))) > i)
  {
    if i != 0 {
      var turn := Add(p, SpiralOrder.TurnRight(step));
      var t := Add(at, SpiralOrder.TurnRight(step));
      assert t == Add(spiral.origin, turn);
      CellPointIs(spiral, t.y, t.x, turn);
      TurnIsFree(spiral, p, i, value);
    }
  }

  method Generate(spiralTo: int) returns (spiral: Spiral)
    requires spiralTo >= 0
    ensures fresh(spiral) && fresh(spiral.numbers) && spiral.Valid()
    ensures spiral.size == Spiral.GetSpiralSize(spiralTo) && spiral.spiralTo == spiralTo
    ensures SpiralGenerator.Complete(spiral)
  {
    spiral := new Spiral(spiralTo);
    PopulateSpiral(spiral);
  }

  /**
   * One drive of a cycle that enters the cell with index i the way the
   * spiral does, on a grid holding exactly the values below i: it writes i
   * there and enters the spiral's next cell the way the spiral does.
   */
  method DriveOnce(lightCycle: LightCycle, ghost cell: Point, ghost i: int)
    requires lightCycle.spiral.Valid() && lightCycle.spiral.size % 2 == 1
    requires lightCycle.nextValue == i && SpiralOrder.IndexOf(cell) == i < lightCycle.spiral.numbers.Length0 * lightCycle.spiral.numbers.Length1
    requires lightCycle.position == Add(lightCycle.spiral.origin, cell) && SideStep(lightCycle.side) == SpiralOrder.ArrivalStep(cell)
    requires forall r, c {:trigger SpiralOrder.Written(lightCycle.spiral, lightCycle.spiral.CellPoint(r, c), i, 0)}
               | 0 <= r < lightCycle.spiral.numbers.Length0 && 0 <= c < lightCycle.spiral.numbers.Length1 ::
               lightCycle.spiral.numbers[r, c] == SpiralOrder.Written(lightCycle.spiral, lightCycle.spiral.CellPoint(r, c), i, 0)
    modifies lightCycle, lightCycle.spiral.numbers
    ensures lightCycle.nextValue == i + 1 && SpiralOrder.IndexOf(SpiralOrder.NextPoint(cell)) == i + 1
    ensures lightCycle.position == Add(lightCycle.spiral.origin, SpiralOrder.NextPoint(cell))
    ensures SideStep(lightCycle.side) == SpiralOrder.ArrivalStep(SpiralOrder.NextPoint(cell))
    ensures forall r, c | 0 <= r < lightCycle.spiral.numbers.Length0 && 0 <= c < lightCycle.spiral.numbers.Length1 ::
              lightCycle.spiral.numbers[r, c] ==
                if lightCycle.spiral.CellPoint(r, c) == cell then lightCycle.spiral.UpToLimit(i) else old(lightCycle.spiral.numbers[r, c])
  {
    var spiral := lightCycle.spiral;
    ghost var at, step := lightCycle.position, SideStep(lightCycle.side);
    DriveStaysInGrid(spiral, cell, i, at, step);
    ghost var turnCell := Add(at, SpiralOrder.TurnRight(step));
    lightCycle.DriveClockwise();
    forall r, c | 0 <= r < spiral.numbers.Length0 && 0 <= c < spiral.numbers.Length1
      ensures spiral.numbers[r, c] == if spiral.CellPoint(r, c) == cell then spiral.UpToLimit(i) else old(spiral.numbers[r, c])
    {
      CellPointIs(spiral, r, c, cell);
    }
    DriveStep(spiral, cell, i, at, step, if i != 0 then old(spiral.numbers[turnCell.y, turnCell.x]) else 0);
  }

  /**
   * Drives a fresh cycle once per cell of an all-zero grid; the i-th drive
   * writes the cell whose index is i, arriving there in the direction the
   * spiral enters it.
   */
  method PopulateSpiral(spiral: Spiral)
    requires spiral.Valid() && spiral.size % 2 == 1
    requires forall r, c | 0 <= r < spiral.numbers.Length0 && 0 <= c < spiral.numbers.Length1 :: spiral.numbers[r, c] == 0
    modifies spiral.numbers
    ensures SpiralGenerator.Complete(spiral)
  {
    var lightCycle := new LightCycle(spiral);
    var i := 0;
    ghost var cell := Point(0, 0);
    while i < spiral.numbers.Length0 * spiral.numbers.Length1
      invariant 0 <= i <= spiral.numbers.Length0 * spiral.numbers.Length1
      invariant lightCycle.spiral == spiral && lightCycle.nextValue == i
      invariant SpiralOrder.IndexOf(cell) == i
      invariant lightCycle.position == Add(spiral.origin, cell)
      invariant SideStep(lightCycle.side) == SpiralOrder.ArrivalStep(cell)
      invariant forall r, c | 0 <= r < spiral.numbers.Length0 && 0 <= c < spiral.numbers.Length1 ::
                  spiral.numbers[r, c] == SpiralOrder.Written(spiral, spiral.CellPoint(r, c), i, 0)
    {
      label DriveStart:
      DriveOnce(lightCycle, cell, i);
      forall r, c | 0 <= r < spiral.numbers.Length0 && 0 <= c < spiral.numbers.Length1
        ensures spiral.numbers[r, c] == SpiralOrder.Written(spiral, spiral.CellPoint(r, c), i + 1, 0)
      {
        SpiralOrder.WriteNextCell(spiral, cell, i, spiral.CellPoint(r, c), old@DriveStart(spiral.numbers[r, c]), spiral.numbers[r, c], 0);
      }
      cell := SpiralOrder.NextPoint(cell);
      i := i + 1;
    }
    forall r, c | 0 <= r < spiral.numbers.Length0 && 0 <= c < spiral.numbers.Length1
      ensures spiral.numbers[r, c] == SpiralGenerator.Final(spiral, spiral.CellPoint(r, c))
    {
      SpiralOrder.WrittenAll(spiral, r, c, 0);
    }
  }
}
