/** The tree-height grid shared by the two solvers of test_day08: one row per
    input line, one digit per tree, and the four lines of sight from a tree
    towards the edges. */
module TreeGrid {
  import opened Wrappers
  import Text

  type Grid = seq<seq<int>>

  /** `[int(num) for num in line]`; `None` where a character is not a digit and
      `int` raises. */
  function ParseRow(line: string): (r: Option<seq<int>>)
    ensures r.Some? <==> Text.AllDigits(line)
    ensures r.Some? ==> |r.value| == |line| && forall k :: 0 <= k < |line| ==> r.value[k] == Text.DigitValue(line[k])
  {
    if Text.AllDigits(line) then Some(seq(|line|, k requires 0 <= k < |line| => Text.DigitValue(line[k]))) else None
  }

  /** `parse_tree_grid`: one row per line; `None` where a line holds a
      non-digit. */
  function ParseTreeGrid(lines: seq<string>): (r: Option<Grid>)
    ensures r.Some? <==> forall i :: 0 <= i < |lines| ==> ParseRow(lines[i]).Some?
    ensures r.Some? ==> |r.value| == |lines| && forall i :: 0 <= i < |lines| ==> Some(r.value[i]) == ParseRow(lines[i])
  {
    if forall i :: 0 <= i < |lines| ==> ParseRow(lines[i]).Some? then
      Some(seq(|lines|, i requires 0 <= i < |lines| && ParseRow(lines[i]).Some? => ParseRow(lines[i]).value))
    else None
  }

  /** Every height of a parsed grid is a digit. */
  lemma ParsedHeightsAreDigits(lines: seq<string>, i: nat, k: nat)
    requires ParseTreeGrid(lines).Some?
    requires i < |lines| && k < |lines[i]|
    ensures var grid := ParseTreeGrid(lines).value; k < |grid[i]| && 0 <= grid[i][k] <= 9
  {
  }

  /** Column `y` exists in every row, so the views up and down can be built. */
  predicate HasColumn(grid: Grid, y: int) {
    0 <= y && forall i :: 0 <= i < |grid| ==> y < |grid[i]|
  }

  /** The heights of column `y`, from top to bottom. */
  function Column(grid: Grid, y: int): (c: seq<int>)
    requires HasColumn(grid, y)
    ensures |c| == |grid| && forall i :: 0 <= i < |grid| ==> c[i] == grid[i][y]
  {
    seq(|grid|, i requires 0 <= i < |grid| => grid[i][y])
  }

  /** `seq` backwards, as `[::-1]` gives it. */
  function Reversed(s: seq<int>): (r: seq<int>)
    ensures |r| == |s| && forall k :: 0 <= k < |s| ==> r[k] == s[|s| - 1 - k]
  {
    seq(|s|, k requires 0 <= k < |s| => s[|s| - 1 - k])
  }

  /** A tree that can be looked at from all four sides: its row exists and
      its column exists in every row. */
  predicate IsCell(grid: Grid, x: int, y: int) {
    0 <= x < |grid| && HasColumn(grid, y)
  }

  /** `grid[x][0:y]`: the trees to the left, from the edge inwards. */
  function Left(grid: Grid, x: int, y: int): seq<int>
    requires IsCell(grid, x, y)
  {
    grid[x][..y]
  }

  /** `grid[x][y + 1:]`: the trees to the right, nearest first. */
  function Right(grid: Grid, x: int, y: int): seq<int>
    requires IsCell(grid, x, y)
  {
    grid[x][y + 1..]
  }

  /** The trees below, nearest first. */
  function Down(grid: Grid, x: int, y: int): seq<int>
    requires IsCell(grid, x, y)
  {
    Column(grid, y)[x + 1..]
  }

  /** The trees above, from the edge inwards. */
  function Up(grid: Grid, x: int, y: int): seq<int>
    requires IsCell(grid, x, y)
  {
    Column(grid, y)[..x]
  }

  /** The grid has rows, the first one no longer than any other: what
      `count_visible_trees` and `get_max_scenic_score` need to look at
      every tree of the first row's width. */
  predicate Scannable(grid: Grid) {
    grid == [] || forall i :: 0 <= i < |grid| ==> |grid[0]| <= |grid[i]|
  }

  function Width(grid: Grid): nat {
    if grid == [] then 0 else |grid[0]|
  }

  lemma ScannableCell(grid: Grid, x: int, y: int)
    requires Scannable(grid) && 0 <= x < |grid| && 0 <= y < Width(grid)
    ensures IsCell(grid, x, y)
  {
  }

  /** A tree on the edge of the grid has no tree on at least one side. */
  lemma BorderHasEmptySide(grid: Grid, x: int, y: int)
    requires IsCell(grid, x, y)
    requires x == 0 || y == 0 || x == |grid| - 1 || y == |grid[x]| - 1
    ensures Up(grid, x, y) == [] || Left(grid, x, y) == [] || Down(grid, x, y) == [] || Right(grid, x, y) == []
  {
  }

  /** The grid of the tests. */
  const Sample: Grid := [[3, 0, 3, 7, 3], [2, 5, 5, 1, 2], [6, 5, 3, 3, 2], [3, 3, 5, 4, 9], [3, 5, 3, 9, 0]]

  lemma SampleHasColumns()
    ensures forall y :: 0 <= y < 5 ==> HasColumn(Sample, y)
  {
  }

  /** A line of five digits parses to their values. */
  lemma ParseFiveDigits(line: string, a: int, b: int, c: int, d: int, e: int)
    requires |line| == 5 && Text.AllDigits(line)
    requires Text.DigitValue(line[0]) == a && Text.DigitValue(line[1]) == b && Text.DigitValue(line[2]) == c
    requires Text.DigitValue(line[3]) == d && Text.DigitValue(line[4]) == e
    ensures ParseRow(line) == Some([a, b, c, d, e])
  {
    var row := ParseRow(line).value;
    assert row[0] == a && row[1] == b && row[2] == c && row[3] == d && row[4] == e;
    assert row == [a, b, c, d, e];
  }

  /** The lines of the test parse to the sample grid. */
  lemma ParseSample()
    ensures ParseTreeGrid(["30373", "25512", "65332", "33549", "35390"]) == Some(Sample)
  {
    var lines := ["30373", "25512", "65332", "33549", "35390"];
    ParseFiveDigits(lines[0], 3, 0, 3, 7, 3);
    ParseFiveDigits(lines[1], 2, 5, 5, 1, 2);
    ParseFiveDigits(lines[2], 6, 5, 3, 3, 2);
    ParseFiveDigits(lines[3], 3, 3, 5, 4, 9);
    ParseFiveDigits(lines[4], 3, 5, 3, 9, 0);
    forall i | 0 <= i < 5
      ensures ParseRow(lines[i]).Some?
    {
      if i == 0 {
      } else if i == 1 {
      } else if i == 2 {
      } else if i == 3 {
      } else {
      }
    }
    var grid := ParseTreeGrid(lines).value;
    assert grid[0] == Sample[0] && grid[1] == Sample[1] && grid[2] == Sample[2];
    assert grid[3] == Sample[3] && grid[4] == Sample[4];
    assert grid == Sample;
  }

  /** A sequence of five elements, element by element. */
  lemma FiveElements<T>(r: seq<T>, a: T, b: T, c: T, d: T, e: T)
    requires |r| == 5 && r[0] == a && r[1] == b && r[2] == c && r[3] == d && r[4] == e
    ensures r == [a, b, c, d, e]
  {
  }
}
