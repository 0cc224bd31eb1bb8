/** test_day08/test_ex13.py: a tree is visible from outside the grid when it
    is taller than every tree between it and one of the four edges; the
    answer counts the visible trees. */
module TreeVisibility {
  import opened TreeGrid
  import Counting

  /** `max(trees or [-1])`. */
  function MaxOr(trees: seq<int>): (m: int)
    ensures trees == [] ==> m == -1
    ensures trees != [] ==> (exists k :: 0 <= k < |trees| && trees[k] == m)
    ensures forall k :: 0 <= k < |trees| ==> trees[k] <= m
  {
    if trees == [] then -1
    else if |trees| == 1 then trees[0]
    else
      var rest := MaxOr(trees[1..]);
      assert forall k :: 1 <= k < |trees| ==> trees[k] == trees[1..][k - 1];
      if trees[0] < rest then rest else trees[0]
  }

  /** Every tree of `trees` is shorter than `height`. */
  predicate AllShorter(height: int, trees: seq<int>) {
    forall k :: 0 <= k < |trees| ==> trees[k] < height
  }

  /** Being taller than the maximum is being taller than every tree, for a
      height that is not negative, as every digit is. */
  lemma TallerThanMax(height: int, trees: seq<int>)
    requires height >= 0
    ensures height > MaxOr(trees) <==> AllShorter(height, trees)
  {
  }

  /** `is_tree_visible`: taller than the maximum to the left, to the right,
      below or above. */
  predicate IsTreeVisible(grid: Grid, x: int, y: int)
    requires IsCell(grid, x, y)
  {
    var height := grid[x][y];
    height > MaxOr(Left(grid, x, y))
    || height > MaxOr(Right(grid, x, y))
    || height > MaxOr(Down(grid, x, y))
    || height > MaxOr(Up(grid, x, y))
  }

  /** A tree is visible exactly when every tree on one of its four sides is
      shorter. */
  lemma VisibleIff(grid: Grid, x: int, y: int)
    requires IsCell(grid, x, y) && grid[x][y] >= 0
    ensures IsTreeVisible(grid, x, y)
        <==> AllShorter(grid[x][y], Left(grid, x, y)) || AllShorter(grid[x][y], Right(grid, x, y))
             || AllShorter(grid[x][y], Down(grid, x, y)) || AllShorter(grid[x][y], Up(grid, x, y))
  {
    var height := grid[x][y];
    TallerThanMax(height, Left(grid, x, y));
    TallerThanMax(height, Right(grid, x, y));
    TallerThanMax(height, Down(grid, x, y));
    TallerThanMax(height, Up(grid, x, y));
  }

  /** Every tree on the edge of the grid is visible. */
  lemma BorderIsVisible(grid: Grid, x: int, y: int)
    requires IsCell(grid, x, y) && grid[x][y] >= 0
    requires x == 0 || y == 0 || x == |grid| - 1 || y == |grid[x]| - 1
    ensures IsTreeVisible(grid, x, y)
  {
    BorderHasEmptySide(grid, x, y);
  }

  /** Which trees of row `x`, up to the first row's width, are visible. */
  function Visibility(grid: Grid, x: int): (flags: seq<bool>)
    requires Scannable(grid) && 0 <= x < |grid|
    ensures |flags| == Width(grid)
    ensures forall y :: 0 <= y < |flags| ==> (flags[y] <==> IsCell(grid, x, y) && IsTreeVisible(grid, x, y))
  {
    seq(Width(grid), y requires 0 <= y < Width(grid) => ScannableCell(grid, x, y); IsTreeVisible(grid, x, y))
  }

  /** The visibility flags of every row. */
  function Matrix(grid: Grid): (m: seq<seq<bool>>)
    requires Scannable(grid)
    ensures |m| == |grid|
  {
    seq(|grid|, x requires 0 <= x < |grid| => Visibility(grid, x))
  }

  /** `count_visible_trees`: the visible trees of every row, over the first
      row's width. */
  function CountVisibleTrees(grid: Grid): (r: nat)
    requires Scannable(grid)
    ensures r <= |grid| * Width(grid)
  {
    var m := Matrix(grid);
    Counting.CountRowsBound(m, |grid|, Width(grid));
    Counting.CountRowsTrue(m, |grid|)
  }

  /** The count is the number of positions, within the first row's width,
      of a visible tree. */
  lemma CountIsVisibleCells(grid: Grid)
    requires Scannable(grid)
    ensures CountVisibleTrees(grid)
         == |set x, y | 0 <= x < |grid| && 0 <= y < Width(grid) && IsCell(grid, x, y) && IsTreeVisible(grid, x, y) :: (x, y)|
  {
    var m := Matrix(grid);
    Counting.CountRowsIsSize(m, |grid|);
    assert Counting.TrueCells(m, |grid|)
        == set x, y | 0 <= x < |grid| && 0 <= y < Width(grid) && IsCell(grid, x, y) && IsTreeVisible(grid, x, y) :: (x, y);
  }

  /** The columns of the sample grid. */
  lemma SampleColumns()
    ensures Column(Sample, 0) == [3, 2, 6, 3, 3]
    ensures Column(Sample, 1) == [0, 5, 5, 3, 5]
    ensures Column(Sample, 2) == [3, 5, 3, 5, 3]
    ensures Column(Sample, 3) == [7, 1, 3, 4, 9]
    ensures Column(Sample, 4) == [3, 2, 2, 9, 0]
  {
    SampleHasColumns();
  }

  /** A tree's visibility from the four lists of trees beside it. */
  lemma VisibleBySides(grid: Grid, x: int, y: int, left: seq<int>, right: seq<int>, down: seq<int>, up: seq<int>)
    requires IsCell(grid, x, y)
    requires Left(grid, x, y) == left && Right(grid, x, y) == right
    requires Down(grid, x, y) == down && Up(grid, x, y) == up
    ensures IsTreeVisible(grid, x, y)
        <==> grid[x][y] > MaxOr(left) || grid[x][y] > MaxOr(right) || grid[x][y] > MaxOr(down) || grid[x][y] > MaxOr(up)
  {
  }

  /** Tree by tree, which trees of the sample grid are visible. */
  lemma SampleTree00()
    ensures IsCell(Sample, 0, 0) && IsTreeVisible(Sample, 0, 0)
  {
    SampleHasColumns();
    SampleColumns();
    VisibleBySides(Sample, 0, 0, [], [0, 3, 7, 3], [2, 6, 3, 3], []);
  }

  lemma SampleTree01()
    ensures IsCell(Sample, 0, 1) && IsTreeVisible(Sample, 0, 1)
  {
    SampleHasColumns();
    SampleColumns();
    VisibleBySides(Sample, 0, 1, [3], [3, 7, 3], [5, 5, 3, 5], []);
  }

  lemma SampleTree02()
    ensures IsCell(Sample, 0, 2) && IsTreeVisible(Sample, 0, 2)
  {
    SampleHasColumns();
    SampleColumns();
    VisibleBySides(Sample, 0, 2, [3, 0], [7, 3], [5, 3, 5, 3], []);
  }

  lemma SampleTree03()
    ensures IsCell(Sample, 0, 3) && IsTreeVisible(Sample, 0, 3)
  {
    SampleHasColumns();
    SampleColumns();
    VisibleBySides(Sample, 0, 3, [3, 0, 3], [3], [1, 3, 4, 9], []);
  }

  lemma SampleTree04()
    ensures IsCell(Sample, 0, 4) && IsTreeVisible(Sample, 0, 4)
  {
    SampleHasColumns();
    SampleColumns();
    VisibleBySides(Sample, 0, 4, [3, 0, 3, 7], [], [2, 2, 9, 0], []);
  }

  lemma SampleTree10()
    ensures IsCell(Sample, 1, 0) && IsTreeVisible(Sample, 1, 0)
  {
    SampleHasColumns();
    SampleColumns();
    VisibleBySides(Sample, 1, 0, [], [5, 5, 1, 2], [6, 3, 3], [3]);
  }

  lemma SampleTree11()
    ensures IsCell(Sample, 1, 1) && IsTreeVisible(Sample, 1, 1)
  {
    SampleHasColumns();
    SampleColumns();
    VisibleBySides(Sample, 1, 1, [2], [5, 1, 2], [5, 3, 5], [0]);
  }

  lemma SampleTree12()
    ensures IsCell(Sample, 1, 2) && IsTreeVisible(Sample, 1, 2)
  {
    SampleHasColumns();
    SampleColumns();
    VisibleBySides(Sample, 1, 2, [2, 5], [1, 2], [3, 5, 3], [3]);
  }

  lemma SampleTree13()
    ensures IsCell(Sample, 1, 3) && !IsTreeVisible(Sample, 1, 3)
  {
    SampleHasColumns();
    SampleColumns();
    VisibleBySides(Sample, 1, 3, [2, 5, 5], [2], [3, 4, 9], [7]);
  }

  lemma SampleTree14()
    ensures IsCell(Sample, 1, 4) && IsTreeVisible(Sample, 1, 4)
  {
    SampleHasColumns();
    SampleColumns();
    VisibleBySides(Sample, 1, 4, [2, 5, 5, 1], [], [2, 9, 0], [3]);
  }

  lemma SampleTree20()
    ensures IsCell(Sample, 2, 0) && IsTreeVisible(Sample, 2, 0)
  {
    SampleHasColumns();
    SampleColumns();
    VisibleBySides(Sample, 2, 0, [], [5, 3, 3, 2], [3, 3], [3, 2]);
  }

  lemma SampleTree21()
    ensures IsCell(Sample, 2, 1) && IsTreeVisible(Sample, 2, 1)
  {
    SampleHasColumns();
    SampleColumns();
    VisibleBySides(Sample, 2, 1, [6], [3, 3, 2], [3, 5], [0, 5]);
  }

  lemma SampleTree22()
    ensures IsCell(Sample, 2, 2) && !IsTreeVisible(Sample, 2, 2)
  {
    SampleHasColumns();
    SampleColumns();
    VisibleBySides(Sample, 2, 2, [6, 5], [3, 2], [5, 3], [3, 5]);
  }

  lemma SampleTree23()
    ensures IsCell(Sample, 2, 3) && IsTreeVisible(Sample, 2, 3)
  {
    SampleHasColumns();
    SampleColumns();
    VisibleBySides(Sample, 2, 3, [6, 5, 3], [2], [4, 9], [7, 1]);
  }

  lemma SampleTree24()
    ensures IsCell(Sample, 2, 4) && IsTreeVisible(Sample, 2, 4)
  {
    SampleHasColumns();
    SampleColumns();
    VisibleBySides(Sample, 2, 4, [6, 5, 3, 3], [], [9, 0], [3, 2]);
  }

  lemma SampleTree30()
    ensures IsCell(Sample, 3, 0) && IsTreeVisible(Sample, 3, 0)
  {
    SampleHasColumns();
    SampleColumns();
    VisibleBySides(Sample, 3, 0, [], [3, 5, 4, 9], [3], [3, 2, 6]);
  }

  lemma SampleTree31()
    ensures IsCell(Sample, 3, 1) && !IsTreeVisible(Sample, 3, 1)
  {
    SampleHasColumns();
    SampleColumns();
    VisibleBySides(Sample, 3, 1, [3], [5, 4, 9], [5], [0, 5, 5]);
  }

  lemma SampleTree32()
    ensures IsCell(Sample, 3, 2) && IsTreeVisible(Sample, 3, 2)
  {
    SampleHasColumns();
    SampleColumns();
    VisibleBySides(Sample, 3, 2, [3, 3], [4, 9], [3], [3, 5, 3]);
  }

  lemma SampleTree33()
    ensures IsCell(Sample, 3, 3) && !IsTreeVisible(Sample, 3, 3)
  {
    SampleHasColumns();
    SampleColumns();
    VisibleBySides(Sample, 3, 3, [3, 3, 5], [9], [9], [7, 1, 3]);
  }

  lemma SampleTree34()
    ensures IsCell(Sample, 3, 4) && IsTreeVisible(Sample, 3, 4)
  {
    SampleHasColumns();
    SampleColumns();
    VisibleBySides(Sample, 3, 4, [3, 3, 5, 4], [], [0], [3, 2, 2]);
  }

  lemma SampleTree40()
    ensures IsCell(Sample, 4, 0) && IsTreeVisible(Sample, 4, 0)
  {
    SampleHasColumns();
    SampleColumns();
    VisibleBySides(Sample, 4, 0, [], [5, 3, 9, 0], [], [3, 2, 6, 3]);
  }

  lemma SampleTree41()
    ensures IsCell(Sample, 4, 1) && IsTreeVisible(Sample, 4, 1)
  {
    SampleHasColumns();
    SampleColumns();
    VisibleBySides(Sample, 4, 1, [3], [3, 9, 0], [], [0, 5, 5, 3]);
  }

  lemma SampleTree42()
    ensures IsCell(Sample, 4, 2) && IsTreeVisible(Sample, 4, 2)
  {
    SampleHasColumns();
    SampleColumns();
    VisibleBySides(Sample, 4, 2, [3, 5], [9, 0], [], [3, 5, 3, 5]);
  }

  lemma SampleTree43()
    ensures IsCell(Sample, 4, 3) && IsTreeVisible(Sample, 4, 3)
  {
    SampleHasColumns();
    SampleColumns();
    VisibleBySides(Sample, 4, 3, [3, 5, 3], [0], [], [7, 1, 3, 4]);
  }

  lemma SampleTree44()
    ensures IsCell(Sample, 4, 4) && IsTreeVisible(Sample, 4, 4)
  {
    SampleHasColumns();
    SampleColumns();
    VisibleBySides(Sample, 4, 4, [3, 5, 3, 9], [], [], [3, 2, 2, 9]);
  }

  /** Row by row, the visibility flags of the sample grid. */
  lemma SampleTopRow()
    ensures Visibility(Sample, 0) == [true, true, true, true, true]
  {
    SampleHasColumns();
    SampleTree00();
    SampleTree01();
    SampleTree02();
    SampleTree03();
    SampleTree04();
    var r := Visibility(Sample, 0);
    assert r[0] == IsTreeVisible(Sample, 0, 0) && r[1] == IsTreeVisible(Sample, 0, 1) && r[2] == IsTreeVisible(Sample, 0, 2);
    assert r[3] == IsTreeVisible(Sample, 0, 3) && r[4] == IsTreeVisible(Sample, 0, 4);
    FiveElements(r, true, true, true, true, true);
  }

  lemma SampleSecondRow()
    ensures Visibility(Sample, 1) == [true, true, true, false, true]
  {
    SampleHasColumns();
    SampleTree10();
    SampleTree11();
    SampleTree12();
    SampleTree13();
    SampleTree14();
    var r := Visibility(Sample, 1);
    assert r[0] == IsTreeVisible(Sample, 1, 0) && r[1] == IsTreeVisible(Sample, 1, 1) && r[2] == IsTreeVisible(Sample, 1, 2);
    assert r[3] == IsTreeVisible(Sample, 1, 3) && r[4] == IsTreeVisible(Sample, 1, 4);
    FiveElements(r, true, true, true, false, true);
  }

  lemma SampleMiddleRow()
    ensures Visibility(Sample, 2) == [true, true, false, true, true]
  {
    SampleHasColumns();
    SampleTree20();
    SampleTree21();
    SampleTree22();
    SampleTree23();
    SampleTree24();
    var r := Visibility(Sample, 2);
    assert r[0] == IsTreeVisible(Sample, 2, 0) && r[1] == IsTreeVisible(Sample, 2, 1) && r[2] == IsTreeVisible(Sample, 2, 2);
    assert r[3] == IsTreeVisible(Sample, 2, 3) && r[4] == IsTreeVisible(Sample, 2, 4);
    FiveElements(r, true, true, false, true, true);
  }

  lemma SampleFourthRow()
    ensures Visibility(Sample, 3) == [true, false, true, false, true]
  {
    SampleHasColumns();
    SampleTree30();
    SampleTree31();
    SampleTree32();
    SampleTree33();
    SampleTree34();
    var r := Visibility(Sample, 3);
    assert r[0] == IsTreeVisible(Sample, 3, 0) && r[1] == IsTreeVisible(Sample, 3, 1) && r[2] == IsTreeVisible(Sample, 3, 2);
    assert r[3] == IsTreeVisible(Sample, 3, 3) && r[4] == IsTreeVisible(Sample, 3, 4);
    FiveElements(r, true, false, true, false, true);
  }

  lemma SampleBottomRow()
    ensures Visibility(Sample, 4) == [true, true, true, true, true]
  {
    SampleHasColumns();
    SampleTree40();
    SampleTree41();
    SampleTree42();
    SampleTree43();
    SampleTree44();
    var r := Visibility(Sample, 4);
    assert r[0] == IsTreeVisible(Sample, 4, 0) && r[1] == IsTreeVisible(Sample, 4, 1) && r[2] == IsTreeVisible(Sample, 4, 2);
    assert r[3] == IsTreeVisible(Sample, 4, 3) && r[4] == IsTreeVisible(Sample, 4, 4);
    FiveElements(r, true, true, true, true, true);
  }

  /** The trees the test looks at. */
  lemma SampleVisibleTrees()
    ensures IsCell(Sample, 0, 0) && IsTreeVisible(Sample, 0, 0)
    ensures IsCell(Sample, 1, 4) && IsTreeVisible(Sample, 1, 4)
    ensures IsCell(Sample, 4, 2) && IsTreeVisible(Sample, 4, 2)
    ensures IsCell(Sample, 0, 2) && IsTreeVisible(Sample, 0, 2)
    ensures IsCell(Sample, 1, 1) && IsTreeVisible(Sample, 1, 1)
    ensures IsCell(Sample, 1, 2) && IsTreeVisible(Sample, 1, 2)
    ensures IsCell(Sample, 3, 3) && !IsTreeVisible(Sample, 3, 3)
    ensures IsCell(Sample, 3, 2) && IsTreeVisible(Sample, 3, 2)
    ensures IsCell(Sample, 0, 1) && IsTreeVisible(Sample, 0, 1)
  {
    SampleTopRow();
    SampleSecondRow();
    SampleFourthRow();
    SampleBottomRow();
    assert Visibility(Sample, 0)[0] && Visibility(Sample, 0)[1] && Visibility(Sample, 0)[2];
    assert Visibility(Sample, 1)[1] && Visibility(Sample, 1)[2] && Visibility(Sample, 1)[4];
    assert Visibility(Sample, 3)[2] && !Visibility(Sample, 3)[3];
    assert Visibility(Sample, 4)[2];
  }

  /** A grid of five rows counts the flags of the five rows' visibility. */
  lemma {:induction false} CountOfFiveRows(grid: Grid, r0: seq<bool>, r1: seq<bool>, r2: seq<bool>, r3: seq<bool>, r4: seq<bool>)
    requires Scannable(grid) && |grid| == 5
    requires Visibility(grid, 0) == r0 && Visibility(grid, 1) == r1 && Visibility(grid, 2) == r2
    requires Visibility(grid, 3) == r3 && Visibility(grid, 4) == r4
    ensures CountVisibleTrees(grid)
         == Counting.CountTrue(r0) + Counting.CountTrue(r1) + Counting.CountTrue(r2) + Counting.CountTrue(r3) + Counting.CountTrue(r4)
  {
    var m := Matrix(grid);
    Counting.CountFiveRows(m);
    assert m[0] == r0 && m[1] == r1 && m[2] == r2 && m[3] == r3 && m[4] == r4;
  }

  lemma SampleRowCounts()
    ensures Counting.CountTrue([true, true, true, true, true]) == 5
    ensures Counting.CountTrue([true, true, true, false, true]) == 4
    ensures Counting.CountTrue([true, true, false, true, true]) == 4
    ensures Counting.CountTrue([true, false, true, false, true]) == 3
  {
    Counting.CountFive(true, true, true, true, true);
    Counting.CountFive(true, true, true, false, true);
    Counting.CountFive(true, true, false, true, true);
    Counting.CountFive(true, false, true, false, true);
  }

  /** The test's count: 21 visible trees. */
  lemma SampleCount()
    ensures CountVisibleTrees(Sample) == 21
  {
    SampleTopRow();
    SampleSecondRow();
    SampleMiddleRow();
    SampleFourthRow();
    SampleBottomRow();
    SampleRowCounts();
    CountOfFiveRows(Sample, [true, true, true, true, true], [true, true, true, false, true],
                    [true, true, false, true, true], [true, false, true, false, true], [true, true, true, true, true]);
  }
}
