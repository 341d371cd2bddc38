/**
 * The order in which the spiral visits the plane, defined independently of
 * the side arithmetic of `SpiralGenerator.GetValueAt`:
 *
 *  - `NextPoint` is the geometric walk: from the origin step right; from the
 *    top-right corner of a shell step right onto the next shell; otherwise
 *    go down the right side, left along the bottom, up the left side and
 *    right along the top.
 *  - `PointAt` is the closed-form inverse of the index, found from the
 *    integer square root.
 *
 * The lemmas prove that the index counts the walk one by one, that the two
 * are inverse bijections between points and naturals, and the facts the
 * walking generators rely on: which cells a walk of n steps has written,
 * which of them fit in a grid, and the light-cycle turning rule.
 */
module SpiralOrder {
  import opened Geometry
  import opened Spirals
  import opened SpiralGenerator

  /** The index of the point `p`. */
  function IndexOf(p: Point): nat
  {
    GetValueAt(p.x, p.y)
  }

  /** The point the spiral visits right after `p`. */
  function NextPoint(p: Point): Point
  {
    var k: int := ShellIndexOf(p);
    if p == Point(0, 0) then Point(1, 0)
    else if p == Point(k, -k) then Point(k + 1, -k)
    else if p.x == k && p.y < k then Point(p.x, p.y + 1)
    else if p.y == k && p.x > -k then Point(p.x - 1, p.y)
    else if p.x == -k && p.y > -k then Point(p.x, p.y - 1)
    else Point(p.x + 1, p.y)
  }

  /** The point reached after `n` steps of the walk from the origin. */
  function Walk(n: nat): Point
  {
    if n == 0 then Point(0, 0) else NextPoint(Walk(n - 1))
  }

  /** The shell whose range of indices (2k-1)² .. (2k+1)²-1 holds `i`. */
  function ShellOfIndex(i: nat): (k: nat)
    requires i >= 1
    ensures k >= 1 && (2 * k - 1) * (2 * k - 1) <= i < (2 * k + 1) * (2 * k + 1)
  {
    var s := FloorSqrt(i);
    var k := (s + 1) / 2;
    if s % 2 == 1 then
      SquareMonotonic(s + 1, s + 2);
      k
    else
      SquareMonotonic(s - 1, s);
      k
  }

  /** The point whose index is `i`. */
  function PointAt(i: nat): Point
  {
    if i == 0 then Point(0, 0)
    else
      var k: int := ShellOfIndex(i);
      var j := i - (2 * k - 1) * (2 * k - 1);
      if j < 2 * k then Point(k, -k + 1 + j)
      else if j < 4 * k then Point(k - 1 - (j - 2 * k), k)
      else if j < 6 * k then Point(-k, k - 1 - (j - 4 * k))
      else Point(-k + 1 + (j - 6 * k), -k)
  }

  /** The ranges of indices of distinct shells do not overlap. */
  lemma ShellOfIndexUnique(i: nat, k: int)
    requires k >= 1 && (2 * k - 1) * (2 * k - 1) <= i < (2 * k + 1) * (2 * k + 1)
    ensures i >= 1 && ShellOfIndex(i) == k
  {
    SquareMonotonic(1, 2 * k - 1);
    ShellRangesDisjoint(i, k, ShellOfIndex(i));
  }

  /** An index lies in the range of one shell only. */
  lemma ShellRangesDisjoint(i: int, a: int, b: int)
    requires a >= 1 && (2 * a - 1) * (2 * a - 1) <= i < (2 * a + 1) * (2 * a + 1)
    requires b >= 1 && (2 * b - 1) * (2 * b - 1) <= i < (2 * b + 1) * (2 * b + 1)
    ensures a == b
  {
    if a < b {
      SquareMonotonic(2 * a + 1, 2 * b - 1);
    } else if b < a {
      SquareMonotonic(2 * b + 1, 2 * a - 1);
    }
  }

  /** Every point of shell k has an index in shell k's range, so its shell is recovered from its index. */
  lemma ShellOfIndexOf(p: Point)
    requires p != Point(0, 0)
    ensures IndexOf(p) >= 1 && ShellOfIndex(IndexOf(p)) == ShellIndexOf(p)
  {
    ShellOfIndexUnique(IndexOf(p), ShellIndexOf(p));
  }

  /** `PointAt` undoes `IndexOf`. */
  lemma PointAtIndexOf(p: Point)
    ensures PointAt(IndexOf(p)) == p
  {
    if p != Point(0, 0) {
      ShellOfIndexOf(p);
      ShellSidesPartition(ShellIndexOf(p), p.x, p.y);
    }
  }

  /** `IndexOf` undoes `PointAt`. */
  lemma IndexOfPointAt(i: nat)
    ensures IndexOf(PointAt(i)) == i
  {
    if i != 0 {
      var k: int := ShellOfIndex(i);
      var p := PointAt(i);
      assert ShellIndexOf(p) == k;
      ShellSidesPartition(k, p.x, p.y);
    }
  }

  /** No two points share an index. */
  lemma IndexInjective(p: Point, q: Point)
    requires IndexOf(p) == IndexOf(q)
    ensures p == q
  {
    PointAtIndexOf(p);
    PointAtIndexOf(q);
  }

  /** Each step of the walk raises the index by exactly one. */
  lemma NextPointIndex(p: Point)
    ensures IndexOf(NextPoint(p)) == IndexOf(p) + 1
  {
    var k: int := ShellIndexOf(p);
    var n := NextPoint(p);
    if p == Point(0, 0) {
    } else if p == Point(k, -k) {
      assert ShellIndexOf(n) == k + 1;
      ShellStartValues(k);
      ShellStartValues(k + 1);
    } else {
      assert ShellIndexOf(n) == k;
      ShellSidesPartition(k, p.x, p.y);
      ShellSidesPartition(k, n.x, n.y);
    }
  }

  /** The walk of n steps from the origin ends at the point whose index is n. */
  lemma {:induction false} WalkIsPointAt(n: nat)
    ensures Walk(n) == PointAt(n)
  {
    if n > 0 {
      WalkIsPointAt(n - 1);
      PointAtNext(n - 1);
    }
  }

  /** Stepping from the point with index i reaches the point with index i+1. */
  lemma PointAtNext(i: nat)
    ensures PointAt(i + 1) == NextPoint(PointAt(i))
  {
    var p := PointAt(i);
    var q := NextPoint(p);
    IndexOfPointAt(i);
    NextPointIndex(p);
    PointAtIndexOf(q);
  }

  /** The successor of a point is the only point whose index is one higher. */
  lemma NextPointOfIndex(p: Point, q: Point)
    requires IndexOf(q) == IndexOf(p) + 1
    ensures q == NextPoint(p)
  {
    NextPointIndex(p);
    IndexInjective(q, NextPoint(p));
  }

  /** Points on inner shells have smaller indices than points on outer shells. */
  lemma IndexGrowsWithShell(p: Point, q: Point)
    requires ShellIndexOf(p) < ShellIndexOf(q)
    ensures IndexOf(p) < IndexOf(q)
  {
    var k: int := ShellIndexOf(p);
    if k > 0 {
      SquareMonotonic(2 * k + 1, 2 * ShellIndexOf(q) - 1);
    }
  }

  /** In a grid of odd width a point is inside exactly when its index is below width². */
  lemma InGridIffIndexBelow(spiral: Spiral, q: Point)
    requires spiral.Valid() && spiral.size % 2 == 1
    ensures spiral.InGrid(q) <==> IndexOf(q) < spiral.size * spiral.size
  {
    var m := spiral.size / 2;
    var k := ShellIndexOf(q);
    assert spiral.InGrid(q) <==> k <= m;
    if k == 0 {
    } else if k <= m {
      SquareMonotonic(2 * k + 1, 2 * m + 1);
    } else {
      SquareMonotonic(2 * m + 1, 2 * k - 1);
    }
  }

  /** In a grid of odd width a point is inside exactly when its shell is drawn on the grid. */
  lemma InGridIffShellWithin(spiral: Spiral, q: Point)
    requires spiral.Valid() && spiral.size % 2 == 1
    ensures spiral.InGrid(q) <==> ShellIndexOf(q) <= spiral.size / 2
  {
  }

  /**
   * What a walking generator has left in the cell at `q` after writing the
   * indices 0 .. n-1: the final value if `q`'s index is among them, and the
   * cell's earlier content `prior` otherwise.
   */
  function Written(spiral: Spiral, q: Point, n: int, prior: int): int
  {
    if IndexOf(q) < n then Final(spiral, q) else prior
  }

  /** Writing index n at its own point extends the written prefix by one cell. */
  lemma WriteNext(spiral: Spiral, p: Point, n: int)
    requires IndexOf(p) == n
    ensures forall q, prior {:trigger Written(spiral, q, n + 1, prior)} ::
              Written(spiral, q, n + 1, prior) == if q == p then Final(spiral, p) else Written(spiral, q, n, prior)
  {
    forall q, prior
      ensures Written(spiral, q, n + 1, prior) == if q == p then Final(spiral, p) else Written(spiral, q, n, prior)
    {
      if q != p && IndexOf(q) == n {
        IndexInjective(p, q);
      }
    }
  }

  /**
   * On a grid that started out all zero, once at least one index has been
   * written, a cell is free (zero and not the origin) exactly when its index
   * has not been written yet: written values are never 0 away from the
   * origin, since truncation gives -1.
   */
  lemma FreeIffNotWritten(spiral: Spiral, q: Point, n: int)
    requires n >= 1
    ensures (Written(spiral, q, n, 0) == 0 && q != Point(0, 0)) <==> IndexOf(q) >= n
  {
  }

  /**
   * Seen from the cell with index i (not the first), a different cell is
   * free after i writes exactly when its index is higher than i.
   */
  lemma FreeIffAbove(spiral: Spiral, q: Point, p: Point, i: int, value: int)
    requires i >= 1 && IndexOf(p) == i && q != p
    requires value == Written(spiral, q, i, 0)
    ensures (value == 0 && q != Point(0, 0)) <==> IndexOf(q) > i
  {
    FreeIffNotWritten(spiral, q, i);
    if IndexOf(q) == i {
      IndexInjective(q, p);
    }
  }

  /** Writing index n at its own point, one cell at a time. */
  lemma WriteNextCell(spiral: Spiral, p: Point, n: int, q: Point, before: int, after: int, prior: int)
    requires IndexOf(p) == n && before == Written(spiral, q, n, prior)
    requires after == if q == p then spiral.UpToLimit(n) else before
    ensures after == Written(spiral, q, n + 1, prior)
  {
    if q != p && IndexOf(q) == n {
      IndexInjective(p, q);
    }
  }

  /** Once every index below width² is written, an odd-width grid is complete. */
  lemma WrittenAll(spiral: Spiral, r: int, c: int, prior: int)
    requires spiral.Valid() && spiral.size % 2 == 1
    requires 0 <= r < spiral.size && 0 <= c < spiral.size
    ensures Written(spiral, spiral.CellPoint(r, c), spiral.size * spiral.size, prior) == Final(spiral, spiral.CellPoint(r, c))
  {
    InGridIffIndexBelow(spiral, spiral.CellPoint(r, c));
  }

  /** A quarter turn clockwise (with y growing downwards). */
  function TurnRight(d: Point): Point
  {
    Point(-d.y, d.x)
  }

  /**
   * The direction of the step that arrives at `p`: the origin and the first
   * cell of each shell are entered moving right; the rest of the right side
   * is entered moving down, the bottom moving left, the left side moving up
   * and the top moving right.
   */
  function ArrivalStep(p: Point): Point
  {
    var k: int := ShellIndexOf(p);
    if p == Point(0, 0) || p == Point(k, -k + 1) then Point(1, 0)
    else if Shell(k).IsOnRight(p.x, p.y) then Point(0, 1)
    else if Shell(k).IsOnBottom(p.x, p.y) then Point(-1, 0)
    else if Shell(k).IsOnLeft(p.x, p.y) then Point(0, -1)
    else Point(1, 0)
  }

  /** Every arrival is a single step along one axis. */
  lemma ArrivalIsUnit(p: Point)
    ensures Abs(ArrivalStep(p).x) + Abs(ArrivalStep(p).y) == 1
  {
  }

  /** The step the walk takes from `p` is the step that arrives at its successor. */
  lemma StepIsArrival(p: Point)
    ensures NextPoint(p) == Add(p, ArrivalStep(NextPoint(p)))
  {
    var k: int := ShellIndexOf(p);
    var n := NextPoint(p);
    if p != Point(0, 0) && p != Point(k, -k) {
      assert ShellIndexOf(n) == k;
    }
  }

  /**
   * The light-cycle rule: away from the origin, the cell to the right of the
   * arrival direction is either already visited (its index is lower), in
   * which case the walk goes straight on, or it is the next cell, entered
   * turning right.
   */
  lemma TurnRightRule(p: Point)
    requires p != Point(0, 0)
    ensures var d := ArrivalStep(p);
            var q := Add(p, TurnRight(d));
            && ShellIndexOf(q) <= ShellIndexOf(p)
            && (if IndexOf(q) > IndexOf(p)
                then NextPoint(p) == q && ArrivalStep(q) == TurnRight(d)
                else NextPoint(p) == Add(p, d) && ArrivalStep(Add(p, d)) == d)
  {
    var k: int := ShellIndexOf(p);
    var d := ArrivalStep(p);
    var q := Add(p, TurnRight(d));
    var n := NextPoint(p);
    NextPointIndex(p);
    StepIsArrival(p);
    ShellSidesPartition(k, p.x, p.y);
    if p == Point(k, -k + 1) {
      // The first cell of a shell: the turn leads down the right side.
      assert n == q;
    } else if Shell(k).IsOnRight(p.x, p.y) {
      if p.y < k {
        IndexGrowsWithShell(q, p);
        assert n == Add(p, d);
      } else {
        assert n == q;
      }
    } else if Shell(k).IsOnBottom(p.x, p.y) {
      if p.x > -k {
        IndexGrowsWithShell(q, p);
        assert n == Add(p, d);
      } else {
        assert n == q;
      }
    } else if Shell(k).IsOnLeft(p.x, p.y) {
      if p.y > -k {
        IndexGrowsWithShell(q, p);
        assert n == Add(p, d);
      } else {
        assert n == q;
      }
    } else if p.x < k {
      IndexGrowsWithShell(q, p);
      assert n == Add(p, d);
    } else {
      // The top-right corner, the last cell of the shell: the turn leads
      // back to its first cell, and the walk steps out to the next shell.
      assert q == Point(k, -k + 1);
      ShellStartValues(k);
      assert n == Add(p, d);
    }
  }
}
