# Square spiral numbers — a verified model of the generators

SpiralNumbers lays the natural numbers 0, 1, 2, … out as a clockwise square
spiral on a grid. 0 sits in the centre cell, 1 is to its right, 2 is below
that, and so on. The program asks for every number up to a target
`spiralTo`. The grid is the smallest odd width that holds them, and every
cell whose number exceeds the target holds -1 instead.

The repository contains eight generators for the same grid:
- two random-access lookups (`RandomAccessGenerator` and its improved
  version);
- two shell drawers that paint each square ring side by side
  (`ShellGenerator`, `ShellGeneratorImproved`);
- a "spark" that walks the spiral while counting side lengths;
- two "light cycles" that walk it by turning right whenever the cell on
  their right is still empty;
- `SpiralGenerator`, a shell object that offers both drawing and lookup.

This project models the grid (`Spirals.Spiral`) and each generator in its
own module, in the form of its C# code:
- classes with `array2` grids and `modifies` clauses where the code
  updates state;
- loops with invariants where the code loops;
- functions where the code computes.

Every generator is proved to fill every cell of its grid with
`SpiralGenerator.GetValueAt` of that cell, or -1 above the target
(`SpiralGenerator.Complete`). So all eight agree. The index itself is
checked against two independent definitions in `SpiralOrder`:
- `NextPoint`, the geometric step of the walk;
- `PointAt`, a closed-form inverse built on the integer square root.

Those two are proved to be a bijection with the index, and the index is
proved to count the walk one step at a time.

Coordinates are origin-relative `(x, y)`, with x growing to the right and
y growing downwards. Shell k is the ring of cells at Chebyshev distance k;
it holds the 8k values (2k-1)² … (2k+1)²-1.

Two conventions of the code shape the whole model:
- Each side of a shell owns the corner at its END: the right side owns the
  bottom-right corner, the bottom side the bottom-left one, the left side
  the top-left one and the top side the top-right one. This is what
  `IsOnRight`/`IsOnBottom`/`IsOnLeft`/`IsOnTop` in
  SpiralGeneration/SpiralGenerator.cs:150-177 and the walk of every
  generator do.
- The value at (2, -1) is 9, as the code computes and as the comment at
  SpiralGeneration/RandomAccessGenerator.cs:9 says.

## Model

| member | source | states |
|---|---|---|
| Geometry.FloorSqrt | Spirals/Spiral.cs:35 | the result r is the integer square root: r² ≤ n < (r+1)², the exact value of ⌊√n⌋ |
| Geometry.FloorSqrtUnique | Spirals/Spiral.cs:35 | any r with r² ≤ n < (r+1)² equals FloorSqrt(n), so the square root is determined by that bracket |
| Spirals.Spiral.GetSpiralSize | Spirals/Spiral.cs:33-41 | the width is odd and at least 1, the width² cells hold 0..spiralTo, and a width two smaller would not (just wide enough) |
| Spirals.Spiral.constructor | Spirals/Spiral.cs:14-20 | a fresh all-zero square grid of GetSpiralSize(spiralTo) cells a side, origin at its centre |
| Spirals.Spiral.FromNumbers | Spirals/Spiral.cs:22-31 | wraps (shares) the given square array, size taken from it, origin at its centre |
| Spirals.Spiral.UpToLimit | Spirals/Spiral.cs:86-89 | no contract of its own; SetValueAbsolute and SetValueRelative state that a written cell reads UpToLimit(value), and GridMatchesRandomAccess that a finished cell reads -1 only where the spiral's value lies above the target and the value itself everywhere else |
| Spirals.Spiral.GetValueAbsolute | Spirals/Spiral.cs:49-52 | no contract of its own; SetValueAbsolute states that after a write at column x, row y this read returns UpToLimit(value) while every other cell keeps its old value |
| Spirals.Spiral.GetValueRelative | Spirals/Spiral.cs:70-73 | no contract of its own; SetValueRelative states that it reads the same cell as GetValueAbsolute(x + origin.x, y + origin.y), and GridMatchesRandomAccess that on a finished grid it agrees with every random-access lookup |
| Spirals.Spiral.SetValueAbsolute | Spirals/Spiral.cs:60-63 | the cell at column x, row y now reads UpToLimit(value) (the value, or -1 above the target); every other cell is unchanged |
| Spirals.Spiral.SetValueRelative | Spirals/Spiral.cs:81-84 | the origin-relative cell now reads UpToLimit(value), which is the same cell as absolute (x + origin.x, y + origin.y); every other cell is unchanged |
| Spirals.Spiral.Rows | Spirals/Spiral.cs:9 | the grid as rows: as many rows as the array, each as wide as the array, cell [r][c] equal to numbers[r, c] |
| Spirals.CellPointIs | Spirals/Spiral.cs:81-84 | the cell in row r, column c is the relative point p exactly when r = p.y + origin.y and c = p.x + origin.x |
| SpiralGenerator.Shell.GetValueAt | SpiralGeneration/SpiralGenerator.cs:126-145 | for any point of shell k ≥ 1 one side claims it (the exception branch cannot be reached) and the value lies in (2k-1)² … (2k+1)²-1 |
| SpiralGenerator.Shell.DrawOn | SpiralGeneration/SpiralGenerator.cs:86-92 | after drawing the four sides, exactly the cells of this shell hold their final value (index, or -1 above the target); all other cells are unchanged |
| SpiralGenerator.Shell.DrawRightOn | SpiralGeneration/SpiralGenerator.cs:94-100 | the 2k cells of column k from row -k+1 down hold RightStartValue plus their distance from the start; all other cells are unchanged |
| SpiralGenerator.Shell.DrawBottomOn | SpiralGeneration/SpiralGenerator.cs:102-108 | the 2k cells of row k from column k-1 leftwards hold BottomStartValue plus their distance from the start; all other cells are unchanged |
| SpiralGenerator.Shell.DrawLeftOn | SpiralGeneration/SpiralGenerator.cs:110-116 | the 2k cells of column -k from row k-1 upwards hold LeftStartValue plus their distance from the start; all other cells are unchanged |
| SpiralGenerator.Shell.DrawTopOn | SpiralGeneration/SpiralGenerator.cs:118-124 | the 2k cells of row -k from column -k+1 rightwards hold TopStartValue plus their distance from the start; all other cells are unchanged |
| SpiralGenerator.ShellStartValues | SpiralGeneration/SpiralGenerator.cs:68-84 | the chained start values are (2k-1)², 4k²+1 for the left side, and the top side ends just before (2k+1)² |
| SpiralGenerator.Shell.SideLength | SpiralGeneration/SpiralGenerator.cs:71 | no contract of its own; each side of shell k is 2k cells long, and ShellStartValues states that four sides of that length run from (2k-1)² to (2k+1)²-1 |
| SpiralGenerator.Shell.RightStartValue | SpiralGeneration/SpiralGenerator.cs:73 | no contract of its own; ShellStartValues states that it is (2k-1)², the first value of shell k |
| SpiralGenerator.Shell.RightStartY | SpiralGeneration/SpiralGenerator.cs:74 | no contract of its own; ValueOnSides states that the cell in row -k+1 of column k, just below the top-right corner, gets the right side's start value (2k-1)² |
| SpiralGenerator.Shell.BottomStartValue | SpiralGeneration/SpiralGenerator.cs:76 | no contract of its own; ShellStartValues states that it is 4k² - 2k + 1, just after the 2k values of the right side |
| SpiralGenerator.Shell.BottomStartX | SpiralGeneration/SpiralGenerator.cs:77 | no contract of its own; ValueOnSides states that the cell in column k-1 of row k, just left of the bottom-right corner, gets the bottom side's first value 4k² - 2k + 1 |
| SpiralGenerator.Shell.LeftStartValue | SpiralGeneration/SpiralGenerator.cs:79 | no contract of its own; ShellStartValues states that it is 4k²+1 |
| SpiralGenerator.Shell.LeftStartY | SpiralGeneration/SpiralGenerator.cs:80 | no contract of its own; ValueOnSides states that the cell in row k-1 of column -k, just above the bottom-left corner, gets the left side's start value 4k²+1 |
| SpiralGenerator.Shell.TopStartValue | SpiralGeneration/SpiralGenerator.cs:82 | no contract of its own; ShellStartValues states that the top side it starts ends just before (2k+1)² |
| SpiralGenerator.Shell.TopStartX | SpiralGeneration/SpiralGenerator.cs:83 | no contract of its own; ValueOnSides states that the cell in column -k+1 of row -k, just right of the top-left corner, gets the top side's first value (2k+1)² - 2k |
| SpiralGenerator.ValueOnSides | SpiralGeneration/SpiralGenerator.cs:126-145 | closed form of the lookup on each side of shell k: down from (2k-1)² on the right, ending at 4k² in the bottom-left corner, up from there on the left, ending at (2k+1)²-1 in the top-right corner |
| SpiralGenerator.ShellSidesPartition | SpiralGeneration/SpiralGenerator.cs:147-177 | on shell k ≥ 1 exactly one of the four side predicates holds: at least one, and no two |
| SpiralGenerator.Shell.IsOnRight | SpiralGeneration/SpiralGenerator.cs:150-153 | no contract of its own; it tests for column k without the top-right corner, which the top side owns. ShellSidesPartition states that on each shell exactly one of the four side tests holds, and ValueOnSides gives the value on this side |
| SpiralGenerator.Shell.IsOnBottom | SpiralGeneration/SpiralGenerator.cs:158-161 | no contract of its own; it tests for row k without the bottom-right corner, which the right side owns. ShellSidesPartition states that on each shell exactly one of the four side tests holds, and ValueOnSides gives the value on this side |
| SpiralGenerator.Shell.IsOnLeft | SpiralGeneration/SpiralGenerator.cs:166-169 | no contract of its own; it tests for column -k without the bottom-left corner, which the bottom side owns. ShellSidesPartition states that on each shell exactly one of the four side tests holds, and ValueOnSides gives the value on this side |
| SpiralGenerator.Shell.IsOnTop | SpiralGeneration/SpiralGenerator.cs:174-177 | no contract of its own; it tests for row -k without the top-left corner, which the left side owns. ShellSidesPartition states that on each shell exactly one of the four side tests holds, and ValueOnSides gives the value on this side |
| SpiralGenerator.GetValueAt | SpiralGeneration/SpiralGenerator.cs:39-48 | 0 at the origin; elsewhere a value inside the range (2k-1)² … (2k+1)²-1 of the point's shell k |
| SpiralGenerator.CellsWithinShells | SpiralGeneration/SpiralGenerator.cs:32 | every cell of an odd-width grid lies on a shell 1 … size/2 that the loop draws (or is the origin) |
| SpiralGenerator.Generate | SpiralGeneration/SpiralGenerator.cs:25-28 | a fresh grid of width GetSpiralSize(spiralTo) in which every cell holds its index, or -1 above the target |
| SpiralGenerator.PopulateSpiral | SpiralGeneration/SpiralGenerator.cs:30-37 | on any odd-width grid every cell but the origin ends up holding its final value; the origin keeps what it held |
| SpiralOrder.ShellOfIndex | SpiralGeneration/SpiralGenerator.cs:73-82 | the shell k ≥ 1 whose range (2k-1)² … (2k+1)²-1 holds a positive index |
| SpiralOrder.ShellOfIndexUnique | SpiralGeneration/SpiralGenerator.cs:73-82 | any k ≥ 1 whose range holds i is ShellOfIndex(i) |
| SpiralOrder.ShellRangesDisjoint | SpiralGeneration/SpiralGenerator.cs:73-82 | two shells whose ranges share an index are the same shell |
| SpiralOrder.ShellOfIndexOf | SpiralGeneration/SpiralGenerator.cs:46-47 | the index of a point off the origin lies in the range of the point's own shell |
| SpiralOrder.PointAtIndexOf | SpiralGeneration/SpiralGenerator.cs:39-48 | the closed-form inverse recovers any point from its index |
| SpiralOrder.IndexOfPointAt | SpiralGeneration/SpiralGenerator.cs:39-48 | every natural number is the index of exactly the point PointAt gives (the lookup is onto) |
| SpiralOrder.IndexInjective | SpiralGeneration/SpiralGenerator.cs:39-48 | two points with the same index are the same point (no cell is numbered twice) |
| SpiralOrder.NextPointIndex | SpiralGeneration/SpiralGenerator.cs:86-124 | one geometric step of the clockwise walk raises the index by exactly one |
| SpiralOrder.WalkIsPointAt | SpiralGeneration/SparkGenerator.cs:31-38 | n steps of the walk from the origin reach the point with index n |
| SpiralOrder.PointAtNext | SpiralGeneration/SpiralGenerator.cs:86-124 | the point with index i+1 is the walk's step from the point with index i |
| SpiralOrder.NextPointOfIndex | SpiralGeneration/SpiralGenerator.cs:86-124 | a point whose index is one more than p's is the walk's step from p |
| SpiralOrder.IndexGrowsWithShell | SpiralGeneration/SpiralGenerator.cs:32-35 | every point of an inner shell has a smaller index than every point of an outer shell |
| SpiralOrder.InGridIffIndexBelow | SpiralGeneration/SparkGenerator.cs:34 | on an odd-width grid a point is a cell exactly when its index is below size², so size² steps fill the grid |
| SpiralOrder.InGridIffShellWithin | SpiralGeneration/SpiralGenerator.cs:32 | on an odd-width grid a point is a cell exactly when its shell is at most size/2 |
| SpiralOrder.WriteNext | SpiralGeneration/SparkGenerator.cs:60-63 | writing the cell with index n turns "cells below n written" into "cells below n+1 written", for every cell |
| SpiralOrder.FreeIffNotWritten | SpiralGeneration/LightCycleGenerator.cs:81-84 | after n ≥ 1 writes into a zero grid, a cell reads 0 and is not the origin exactly when its index is n or more (the emptiness test is exact) |
| SpiralOrder.FreeIffAbove | SpiralGeneration/LightCycleGenerator.cs:81-84 | seen from the cell with index i ≥ 1, any other cell holds 0 and is not the origin after i writes exactly when its index is above i |
| SpiralOrder.WriteNextCell | SpiralGeneration/SparkGenerator.cs:62 | one cell's value after writing index n is its "written below n+1" value |
| SpiralOrder.WrittenAll | SpiralGeneration/SparkGenerator.cs:34-37 | after size² writes every cell holds its final value |
| SpiralOrder.StepIsArrival | SpiralGeneration/LightCycleGenerator.cs:96-105 | each point of the walk is its predecessor moved by its arrival step |
| SpiralOrder.ArrivalIsUnit | SpiralGeneration/LightCycleGenerator.cs:96-105 | every arrival is a single unit step along one axis, so a step (turned or not) never stays on the same cell |
| SpiralOrder.TurnRightRule | SpiralGeneration/LightCycleGenerator.cs:61-74 | the light-cycle rule is the walk: turning right leads to the next point exactly when that cell has a higher index; otherwise the next point is straight ahead |
| RandomAccessGenerator.GetValueAt | SpiralGeneration/RandomAccessGenerator.cs:46-81 | the four-region arithmetic equals the shell index lookup for every point (the -1 fallback is unreachable) |
| RandomAccessGenerator.RegionsPartitionPlane | SpiralGeneration/RandomAccessGenerator.cs:83-101 | every point but the origin lies in exactly one of the four regions; the origin in none |
| RandomAccessGenerator.RegionsAreShellSides | SpiralGeneration/RandomAccessGenerator.cs:83-101 | each region is the corresponding side of the point's shell, corners included as the shell assigns them |
| RandomAccessGenerator.IsOnRightSide | SpiralGeneration/RandomAccessGenerator.cs:83-86 | no contract of its own; RegionsPartitionPlane and RegionsAreShellSides state that it picks out exactly the right sides of the shells, each without its top-right corner |
| RandomAccessGenerator.IsOnBottom | SpiralGeneration/RandomAccessGenerator.cs:88-91 | no contract of its own; RegionsPartitionPlane and RegionsAreShellSides state that it picks out exactly the bottom sides of the shells, each without its bottom-right corner |
| RandomAccessGenerator.IsOnLeftSide | SpiralGeneration/RandomAccessGenerator.cs:93-96 | no contract of its own; RegionsPartitionPlane and RegionsAreShellSides state that it picks out exactly the left sides of the shells, each without its bottom-left corner |
| RandomAccessGenerator.IsOnTop | SpiralGeneration/RandomAccessGenerator.cs:98-101 | no contract of its own; RegionsPartitionPlane and RegionsAreShellSides state that it picks out exactly the top sides of the shells, each without its top-left corner |
| RandomAccessGenerator.RegionValues | SpiralGeneration/RandomAccessGenerator.cs:52-79 | each region's formula gives the shell index lookup of the point |
| RandomAccessGenerator.SquaresOnDiagonalCorners | SpiralGeneration/RandomAccessGenerator.cs:6-13 | (2k-1)² sits one below the top-right corner of shell k, and (2k)² in its bottom-left corner |
| RandomAccessGenerator.AgreesWithImproved | SpiralGeneration/RandomAccessGenerator.cs:46-81 | the two random-access lookups agree at every point |
| RandomAccessGenerator.PopulateSpiral | SpiralGeneration/RandomAccessGenerator.cs:32-44 | the double loop over -offset..offset leaves every cell holding its final value |
| RandomAccessGenerator.Generate | SpiralGeneration/RandomAccessGenerator.cs:27-30 | a fresh grid of width GetSpiralSize(spiralTo), complete |
| RandomAccessGeneratorImproved.GetValueAt | SpiralGeneration/RandomAccessGeneratorImproved.cs:31-56 | the shell-landmark arithmetic equals the shell index lookup (the exception is unreachable) |
| RandomAccessGeneratorImproved.ShellLandmarks | SpiralGeneration/RandomAccessGeneratorImproved.cs:58-92 | start, middle and end of shell k are the indices of the cells they are measured from: (k, -k+1), (-k, k), (k, -k) |
| RandomAccessGeneratorImproved.SidesMatchShell | SpiralGeneration/RandomAccessGeneratorImproved.cs:94-124 | the four side tests coincide with the shell's side predicates |
| RandomAccessGeneratorImproved.GetShellStart | SpiralGeneration/RandomAccessGeneratorImproved.cs:58-61 | no contract of its own; ShellLandmarks states that it is the index of (k, -k+1), the first cell of shell k |
| RandomAccessGeneratorImproved.GetShellMiddle | SpiralGeneration/RandomAccessGeneratorImproved.cs:63-66 | no contract of its own; ShellLandmarks states that it is the index of (-k, k), the bottom-left corner of shell k |
| RandomAccessGeneratorImproved.GetShellEnd | SpiralGeneration/RandomAccessGeneratorImproved.cs:68-72 | no contract of its own; ShellLandmarks states that it is the index of (k, -k), the last cell of shell k |
| RandomAccessGeneratorImproved.GetShellStartYCoord | SpiralGeneration/RandomAccessGeneratorImproved.cs:74-77 | no contract of its own; ShellLandmarks states that row -k+1 of column k holds the shell's start value |
| RandomAccessGeneratorImproved.GetShellMiddleXCoord | SpiralGeneration/RandomAccessGeneratorImproved.cs:79-82 | no contract of its own; ShellLandmarks states that the middle value sits in column -k |
| RandomAccessGeneratorImproved.GetShellMiddleYCoord | SpiralGeneration/RandomAccessGeneratorImproved.cs:84-87 | no contract of its own; ShellLandmarks states that the middle value sits in row k |
| RandomAccessGeneratorImproved.GetShellEndXCoord | SpiralGeneration/RandomAccessGeneratorImproved.cs:89-92 | no contract of its own; ShellLandmarks states that the end value sits in column k |
| RandomAccessGeneratorImproved.IsOnRightOfShell | SpiralGeneration/RandomAccessGeneratorImproved.cs:97-100 | no contract of its own; SidesMatchShell states that it coincides with SpiralGenerator.Shell.IsOnRight on every shell |
| RandomAccessGeneratorImproved.IsOnBottomOfShell | SpiralGeneration/RandomAccessGeneratorImproved.cs:105-108 | no contract of its own; SidesMatchShell states that it coincides with SpiralGenerator.Shell.IsOnBottom on every shell |
| RandomAccessGeneratorImproved.IsOnLeftOfShell | SpiralGeneration/RandomAccessGeneratorImproved.cs:113-116 | no contract of its own; SidesMatchShell states that it coincides with SpiralGenerator.Shell.IsOnLeft on every shell |
| RandomAccessGeneratorImproved.IsOnTopOfShell | SpiralGeneration/RandomAccessGeneratorImproved.cs:121-124 | no contract of its own; SidesMatchShell states that it coincides with SpiralGenerator.Shell.IsOnTop on every shell |
| RandomAccessGeneratorImproved.PopulateSpiral | SpiralGeneration/RandomAccessGeneratorImproved.cs:17-29 | the double loop leaves every cell holding its final value |
| RandomAccessGeneratorImproved.Generate | SpiralGeneration/RandomAccessGeneratorImproved.cs:12-15 | a fresh grid of width GetSpiralSize(spiralTo), complete |
| ShellGenerator.DrawRow | SpiralGeneration/ShellGenerator.cs:51-64 | a horizontal run from column a to b, in either direction, writes consecutive values starting at nextValue, returns nextValue plus the number of cells, and changes nothing else |
| ShellGenerator.DrawColumn | SpiralGeneration/ShellGenerator.cs:65-78 | the same for a vertical run |
| ShellGenerator.DrawLine | SpiralGeneration/ShellGenerator.cs:49-80 | a line draws its horizontal run and then its vertical run, continuing the count; the value after the line is returned |
| ShellGenerator.DrawRectangle | SpiralGeneration/ShellGenerator.cs:41-47 | the four chained lines write each rectangle cell with the value the chained counts give it, and nothing else |
| ShellGenerator.ShellRectangleValue | SpiralGeneration/ShellGenerator.cs:32-47 | for shell k's rectangle started at (2k-1)², a cell receives its final value exactly when it lies on shell k |
| ShellGenerator.ShellLinesContinue | SpiralGeneration/ShellGenerator.cs:41-47 | each of the four lines of shell k spans 2k cells, the right and left lines vertically and the bottom and top lines horizontally, and together they hand on (2k+1)², the first value of the next shell |
| ShellGenerator.DrawShell | SpiralGeneration/ShellGenerator.cs:32-39 | exactly the cells of shell k end up holding their final value; all others are unchanged |
| ShellGenerator.PopulateSpiral | SpiralGeneration/ShellGenerator.cs:23-30 | every cell but the origin holds its final value; the origin keeps what it held |
| ShellGenerator.Generate | SpiralGeneration/ShellGenerator.cs:18-21 | a fresh grid of width GetSpiralSize(spiralTo), complete |
| ShellGeneratorImproved.DrawDown | SpiralGeneration/ShellGeneratorImproved.cs:42-49 | column x from startY down to endY gets consecutive values from nextValue; returns the next value; nothing else changes |
| ShellGeneratorImproved.DrawLeft | SpiralGeneration/ShellGeneratorImproved.cs:51-58 | row y from startX left to endX gets consecutive values; returns the next value; nothing else changes |
| ShellGeneratorImproved.DrawUp | SpiralGeneration/ShellGeneratorImproved.cs:60-67 | column x from startY up to endY gets consecutive values; returns the next value; nothing else changes |
| ShellGeneratorImproved.DrawRight | SpiralGeneration/ShellGeneratorImproved.cs:69-75 | row y from startX right to endX gets consecutive values; nothing else changes |
| ShellGeneratorImproved.GetShellStartingValue | SpiralGeneration/ShellGeneratorImproved.cs:77-81 | the value is (2k-1)², the index of the shell's first cell (k, -k+1) |
| ShellGeneratorImproved.ShellRunsContinue | SpiralGeneration/ShellGeneratorImproved.cs:34-40 | each of the four runs covers 2k cells, and together they end where shell k+1 starts |
| ShellGeneratorImproved.DrawShell | SpiralGeneration/ShellGeneratorImproved.cs:34-40 | exactly the cells of shell k end up holding their final value; all others are unchanged |
| ShellGeneratorImproved.PopulateSpiral | SpiralGeneration/ShellGeneratorImproved.cs:25-32 | every cell but the origin holds its final value; the origin keeps what it held |
| ShellGeneratorImproved.Generate | SpiralGeneration/ShellGeneratorImproved.cs:20-23 | a fresh grid of width GetSpiralSize(spiralTo), complete |
| SparkGenerator.GetNextPositionOnCurrentSide | SpiralGeneration/SparkGenerator.cs:78-87 | a move along the side is a single unit step |
| SparkGenerator.GetNextSideLength | SpiralGeneration/SparkGenerator.cs:89-92 | a side change never shrinks the side and lengthens it by at most two, and even lengths stay even; SideLengthPerLap and StepFollowsWalk fix the exact length 2k on shell k |
| SparkGenerator.GetStartingPositionOfNextSide | SpiralGeneration/SparkGenerator.cs:94-103 | the first cell of the next side is one unit step away |
| SparkGenerator.SidesCycle | SpiralGeneration/SparkGenerator.cs:105-114 | the next side's direction of travel is the current one turned a quarter clockwise (y growing downwards); the side always changes, and four changes return to it |
| SparkGenerator.GetNextSide | SpiralGeneration/SparkGenerator.cs:105-114 | no contract of its own; SidesCycle states that it turns the direction of travel clockwise and returns after four changes |
| SparkGenerator.SideLengthPerLap | SpiralGeneration/SparkGenerator.cs:89-92 | one lap of four side changes, from whichever side, lengthens the sides by exactly two: 2k on shell k becomes 2k + 2 on shell k + 1 |
| SparkGenerator.Step | SpiralGeneration/SparkGenerator.cs:62-75 | the state update of Advance: the spark always moves to a neighbouring cell, the side length never shrinks, and the count drawn on the side either grows by one or starts again at 0 on a different side; StepFollowsWalk ties it to the walk |
| SparkGenerator.Expected | SpiralGeneration/SparkGenerator.cs:53-58 | the spark's state when it stands on point p: positioned on p's cell, with a count drawn on this side that never exceeds the side length (strictly below it away from the origin) |
| SparkGenerator.StepFollowsWalk | SpiralGeneration/SparkGenerator.cs:60-76 | one Advance from the expected state at p gives the expected state at the next point of the walk |
| SparkGenerator.SparkMoves | SpiralGeneration/SparkGenerator.cs:60-76 | while fewer than size² cells are drawn, the spark stands inside the grid and its next state is the one expected at the next point |
| SparkGenerator.Spark.constructor | SpiralGeneration/SparkGenerator.cs:43-51 | the spark starts with the given side, position, lengths and grid, about to write 0 |
| SparkGenerator.Spark.Advance | SpiralGeneration/SparkGenerator.cs:60-76 | writes the next value at its position and nowhere else, and moves to the state Step gives |
| SparkGenerator.PopulateSpiral | SpiralGeneration/SparkGenerator.cs:31-39 | size² advances from the origin leave every cell holding its final value |
| SparkGenerator.Generate | SpiralGeneration/SparkGenerator.cs:18-21 | a fresh grid of width GetSpiralSize(spiralTo), complete |
| LightCycleGenerator.LightCycle.constructor | SpiralGeneration/LightCycleGenerator.cs:48-54 | the cycle starts on the origin heading along the top side, about to write 0 |
| LightCycleGenerator.SideStep | SpiralGeneration/LightCycleGenerator.cs:96-105 | no contract of its own; GetMoveForSide states that the move for each side is the position plus this unit vector, and GetNextSide that the next side's vector is this one turned clockwise |
| LightCycleGenerator.Move | SpiralGeneration/LightCycleGenerator.cs:61-74 | no contract of its own; DriveClockwise states that the cycle's new heading and position are this move, and DriveStep that from the cell with index i it reaches the cell with index i+1 |
| LightCycleGenerator.LightCycle.GetMoveForSide | SpiralGeneration/LightCycleGenerator.cs:96-105 | the move for a side is the position plus that side's unit step |
| LightCycleGenerator.LightCycle.GetNextSide | SpiralGeneration/LightCycleGenerator.cs:107-116 | the next side's step is the current step turned clockwise by a right angle |
| LightCycleGenerator.LightCycle.GetTurnRightPosition | SpiralGeneration/LightCycleGenerator.cs:86-89 | the cell to the right is the position plus the clockwise turn of the heading |
| LightCycleGenerator.LightCycle.GetStraightAheadPosition | SpiralGeneration/LightCycleGenerator.cs:91-94 | the cell straight ahead is the position plus one unit step in the current side's direction |
| LightCycleGenerator.LightCycle.RightTurnIsBlocked | SpiralGeneration/LightCycleGenerator.cs:76-79 | no contract of its own; DriveClockwise states the turn it guards in grid terms (turn right exactly when the cell to the right holds 0 and is not the origin, never on the first move), and TurnIsFree that this test is exact on the spiral |
| LightCycleGenerator.LightCycle.IsEmpty | SpiralGeneration/LightCycleGenerator.cs:81-84 | no contract of its own; FreeIffNotWritten and TurnIsFree state that a cell holds 0 and is not the origin exactly when its index is not yet written |
| LightCycleGenerator.LightCycle.DriveClockwise | SpiralGeneration/LightCycleGenerator.cs:61-74 | writes the next value at its position and nowhere else; turns right when the cell to its right is empty and not the origin (never on the first move), otherwise goes straight |
| LightCycleGenerator.TurnIsFree | SpiralGeneration/LightCycleGenerator.cs:76-84 | after i writes, the right-hand cell is empty exactly when it is not yet numbered |
| LightCycleGenerator.TurnChoice | SpiralGeneration/LightCycleGenerator.cs:76-84 | the cycle's turn test, read off the grid, equals "the right-hand cell has a higher index" |
| LightCycleGenerator.DriveFollowsWalk | SpiralGeneration/LightCycleGenerator.cs:61-74 | the cycle's move, turning exactly when the right-hand cell has a higher index, lands on the next point of the walk with that point's heading |
| LightCycleGenerator.DriveStep | SpiralGeneration/LightCycleGenerator.cs:61-74 | the move DriveClockwise makes from the cell with index i reaches the cell with index i+1, heading as the walk arrives there |
| LightCycleGenerator.TurnInGrid | SpiralGeneration/LightCycleGenerator.cs:86-89 | while the grid is not full, the cycle's cell and the cell to its right lie inside the grid |
| LightCycleGenerator.DriveStaysInGrid | SpiralGeneration/LightCycleGenerator.cs:81-84 | the same in absolute coordinates, so every array read of IsEmpty is in bounds |
| LightCycleGenerator.DriveOnce | SpiralGeneration/LightCycleGenerator.cs:41 | one DriveClockwise from the cell with index i writes it and leaves the cycle on the cell with index i+1 |
| LightCycleGenerator.PopulateSpiral | SpiralGeneration/LightCycleGenerator.cs:36-44 | size² drives from the origin of an all-zero grid leave every cell holding its final value |
| LightCycleGenerator.Generate | SpiralGeneration/LightCycleGenerator.cs:23-26 | a fresh grid of width GetSpiralSize(spiralTo), complete |
| LightCycleGeneratorImproved.Direction.Delta | SpiralGeneration/LightCycleGeneratorImproved.cs:103-129 | each direction's delta is a unit step |
| LightCycleGeneratorImproved.Direction.DeltaX | SpiralGeneration/LightCycleGeneratorImproved.cs:103-129 | no contract of its own; Delta states that with DeltaY it forms a unit step, and DeltaInjective that the four directions differ in it or in DeltaY |
| LightCycleGeneratorImproved.Direction.DeltaY | SpiralGeneration/LightCycleGeneratorImproved.cs:103-129 | no contract of its own; Delta states that with DeltaX it forms a unit step, and DeltaInjective that the four directions differ in it or in DeltaX |
| LightCycleGeneratorImproved.Direction.MoveAhead | SpiralGeneration/LightCycleGeneratorImproved.cs:145-148 | moving ahead adds the direction's delta, one unit step |
| LightCycleGeneratorImproved.Direction.Rotate | SpiralGeneration/LightCycleGeneratorImproved.cs:150-153 | a right rotation turns the delta clockwise by a right angle, and a left rotation anticlockwise |
| LightCycleGeneratorImproved.RotationsCycle | SpiralGeneration/LightCycleGeneratorImproved.cs:110-128 | the turn tables are consistent: a left turn undoes a right turn and vice versa, no rotation keeps the direction, and four equal rotations return to it |
| LightCycleGeneratorImproved.DeltaInjective | SpiralGeneration/LightCycleGeneratorImproved.cs:110-126 | no two directions share a delta |
| LightCycleGeneratorImproved.Bearings.Move | SpiralGeneration/LightCycleGeneratorImproved.cs:89-92 | keeps the heading and moves the position one unit step along it; BearingsMoveLikeCycle proves this is the first light cycle's straight move |
| LightCycleGeneratorImproved.Bearings.MoveWithRotation | SpiralGeneration/LightCycleGeneratorImproved.cs:94-98 | the new heading is the old one turned a quarter clockwise for a right rotation and anticlockwise for a left one, and the position moves one unit step along the new heading; BearingsMoveLikeCycle and DriveStep use it as the cycle's right turn |
| LightCycleGeneratorImproved.BearingsMoveLikeCycle | SpiralGeneration/LightCycleGeneratorImproved.cs:89-98 | with a right rotation, a bearings move is the first light cycle's move |
| LightCycleGeneratorImproved.LightCycle.constructor | SpiralGeneration/LightCycleGeneratorImproved.cs:49-55 | starts on the origin with the given leaving direction and rotation, about to write 0 |
| LightCycleGeneratorImproved.LightCycle.Drive | SpiralGeneration/LightCycleGeneratorImproved.cs:57-75 | writes the next value at its position and nowhere else; leaves the origin straight, elsewhere turns when the turned-to cell is neither occupied nor the origin, otherwise goes straight |
| LightCycleGeneratorImproved.LightCycle.IsOccupied | SpiralGeneration/LightCycleGeneratorImproved.cs:72-75 | no contract of its own; Drive states the turn it guards in grid terms, and DriveStep that on the spiral it turns exactly when the walk does |
| LightCycleGeneratorImproved.OnOriginIffFirst | SpiralGeneration/LightCycleGeneratorImproved.cs:61-64 | the cycle stands on the origin exactly on its first drive |
| LightCycleGeneratorImproved.DriveStep | SpiralGeneration/LightCycleGeneratorImproved.cs:57-75 | with a right rotation, Drive's move from the cell with index i reaches the cell with index i+1, heading as the walk arrives there |
| LightCycleGeneratorImproved.DriveLands | SpiralGeneration/LightCycleGeneratorImproved.cs:57-70 | given the value the turned-to cell held before a drive from the cell with index i, the bearings the drive leaves are those of the cell with index i+1: its position and the heading the walk arrives with |
| LightCycleGeneratorImproved.DriveStaysInGrid | SpiralGeneration/LightCycleGeneratorImproved.cs:72-75 | while the grid is not full, the cycle's cell and the turned-to cell lie inside the grid, so IsOccupied reads in bounds |
| LightCycleGeneratorImproved.DriveOnce | SpiralGeneration/LightCycleGeneratorImproved.cs:31 | one Drive from the cell with index i writes it and leaves the cycle on the cell with index i+1 |
| LightCycleGeneratorImproved.PopulateSpiral | SpiralGeneration/LightCycleGeneratorImproved.cs:26-34 | size² drives with the default direction and rotation, from the origin of an all-zero grid, leave every cell holding its final value |
| LightCycleGeneratorImproved.Generate | SpiralGeneration/LightCycleGeneratorImproved.cs:21-24 | a fresh grid of width GetSpiralSize(spiralTo), complete |
| SpiralExamples.ExpectedRows | SpiralGenerationTest/SpiralGeneratorsTest.cs:42-50 | the expected grid for a target: GetSpiralSize(spiralTo) rows of that many cells |
| SpiralExamples.CompleteRows | SpiralGenerationTest/SpiralGeneratorsTest.cs:160-173 | a complete grid of the right width, read as rows, is exactly the expected grid |
| SpiralExamples.GeneratorsAgree | SpiralGenerationTest/SpiralGeneratorsTest.cs:16-26 | all eight generators return the same rows for the same target: the expected grid |
| SpiralExamples.SpiralSizeExamples | SpiralsTest/SpiralTest.cs:28-75 | widths 1, 3, 3, 3, 5 for targets 0, 1, 3, 8, 9: one cell for 0, nine cells for 1, and the smallest odd width holding the target for 3, 8 and 9 |
| SpiralExamples.GeneratedSizeExamples | SpiralGenerationTest/SpiralGeneratorsTest.cs:52-70 | nine cells for targets 1 and 4, and width 5 for 24, the 5×5 grid the test at line 165 generates |
| SpiralExamples.SingleCellGrid | SpiralGenerationTest/SpiralGeneratorsTest.cs:42-50 | the grid for target 0 is the single cell 0 |
| SpiralExamples.FirstRingRightValues | SpiralGenerationTest/RandomAccessSpiralGeneratorsTest.cs:43-44 | 1 at (1, 0) and 2 at (1, 1) |
| SpiralExamples.FirstRingBottomValues | SpiralGenerationTest/RandomAccessSpiralGeneratorsTest.cs:45-46 | 3 at (0, 1) and 4 at (-1, 1) |
| SpiralExamples.FirstRingLeftValues | SpiralGenerationTest/RandomAccessSpiralGeneratorsTest.cs:47-48 | 5 at (-1, 0) and 6 at (-1, -1) |
| SpiralExamples.FirstRingTopValues | SpiralGenerationTest/RandomAccessSpiralGeneratorsTest.cs:49-50 | 7 at (0, -1) and 8 at (1, -1) |
| SpiralExamples.ThreeByThreeValues | SpiralGenerationTest/RandomAccessSpiralGeneratorsTest.cs:37-51 | the nine values of the three-by-three spiral, 0 in the middle |
| SpiralExamples.RandomAccessExamples | SpiralGeneration/RandomAccessGenerator.cs:9 | both random-access lookups give 9 at (2, -1); the first gives 16 at (-2, 2) |
| SpiralExamples.GridMatchesRandomAccess | SpiralGenerationTest/RandomAccessSpiralGeneratorsTest.cs:54-78 | in a generated grid, a cell holding -1 has a lookup value above the target and any other cell holds the lookup value; the three lookups agree |

## Left out

- Integer width: C# `int` arithmetic is modelled with unbounded integers. Overflow for targets near 2³¹ is not modelled.
- `Math.Floor(Math.Sqrt(spiralTo))` is modelled as the exact integer square root `FloorSqrt`. Floating-point rounding for very large targets is not modelled.
- Rendering (`SpiralRendering`), the console program (`SpiralNumbers`) and their tests are not part of this model. They only read the finished grid.
- The `ISpiralGenerator`/`IRandomAccessSpiralGenerator` interfaces and the dispatch through them are left out. Each generator is its own module, and `SpiralExamples.GeneratorsAgree` calls them one by one.
- The public setters of `Numbers`, `SpiralTo` and `Size` on `Spiral` are left out. No generator calls them, so these members are constants here.
- `Spirals.Spiral.FromNumbers`: the source's `Debug.Assert` that the array is square becomes a precondition. The two-dimensionality check is implied by `array2`.
- `Spirals.Spiral.GetValueAbsolute`, `Spirals.Spiral.SetValueAbsolute`, `Spirals.Spiral.GetValueRelative` and `Spirals.Spiral.SetValueRelative` require their cell to lie inside the grid. The source throws `IndexOutOfRangeException` outside it. No generator reads or writes outside the grid, and the generators' proofs show this.
- `Spirals.Spiral.GetSpiralSize` and `Spirals.Spiral.constructor` require `spiralTo >= 0`. For a negative target the source takes the square root of a negative number, casts NaN to `int` and then fails to allocate the grid. That failure is not modelled.
- The exceptions of `Shell.GetValueAt` and `RandomAccessGeneratorImproved.GetValueAt`, and the -1 fallback of `RandomAccessGenerator.GetValueAt`, are modelled as branches proved unreachable rather than as error results.
- `LightCycleGeneratorImproved.LightCycle.constructor`: C#'s optional parameters (`leaveOriginDirection = null`, `rotation = Right`) are explicit arguments. `PopulateSpiral` passes the defaults `RIGHT` and `Right`.
- `LightCycleGeneratorImproved.PopulateSpiral` is proved only for those defaults, as the source uses them. The anticlockwise `Left` rotation is modelled in `Direction.Rotate`, `RotationsCycle` and `Drive`, but no grid is proved for it.
- `LightCycleGenerator.PopulateSpiral` and `LightCycleGeneratorImproved.PopulateSpiral` require an all-zero grid. The source only ever passes a fresh `Spiral`, and the cycles read zeros as "empty".
- The `PopulateSpiral` methods require an odd-width grid, which is what the `Spiral` constructor always builds.
- `LightCycleGenerator.DriveOnce` and `LightCycleGeneratorImproved.DriveOnce` hold one iteration of the source's `PopulateSpiral` loop. They are separate methods only so that the proof of one drive stays small.
- The literal 3×3, 5×5 and 11×11 grids of SpiralGenerationTest/SpiralGeneratorsTest.cs:72-197 are not restated cell by cell. Instead, `CompleteRows` and `GeneratorsAgree` fix every grid as `ExpectedRows`, and `ThreeByThreeValues` gives the values of the 3×3 grid.
