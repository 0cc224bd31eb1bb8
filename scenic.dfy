/** test_day08/test_ex14.py: the scenic score of a tree multiplies how far
    one can see from it in the four directions; the answer is the best score
    of the grid. */
module Scenic {
  import opened Wrappers
  import opened TreeGrid

  /** How many trees of `direction`, nearest first, a tree of `height` sees:
      every shorter tree, up to and including the first one at least as
      tall, which blocks the view. */
  function ViewingDistance(height: int, direction: seq<int>): (r: nat)
    ensures r <= |direction|
    ensures r == 0 <==> direction == []
    ensures forall k :: 0 <= k < r - 1 ==> direction[k] < height
    ensures r < |direction| ==> direction[r - 1] >= height
    decreases |direction|
  {
    if direction == [] then 0
    else if direction[0] >= height then 1
    else
      var rest := ViewingDistance(height, direction[1..]);
      assert forall k :: 1 <= k < |direction| ==> direction[k] == direction[1..][k - 1];
      1 + rest
  }

  /** The view ends at the first tree at least as tall. */
  lemma {:induction false} BlockedView(height: int, direction: seq<int>, k: nat)
    requires k < |direction| && direction[k] >= height
    requires forall j :: 0 <= j < k ==> direction[j] < height
    ensures ViewingDistance(height, direction) == k + 1
  {
  }

  /** A tree taller than all of `direction` sees all of it. */
  lemma {:induction false} OpenView(height: int, direction: seq<int>)
    requires forall j :: 0 <= j < |direction| ==> direction[j] < height
    ensures ViewingDistance(height, direction) == |direction|
  {
  }

  /** `_get_direction_scenic_score`: counts the trees looked at, stopping
      after the first one at least as tall. */
  method GetDirectionScenicScore(height: int, direction: seq<int>) returns (score: nat)
    ensures score == ViewingDistance(height, direction)
  {
    score := 0;
    var i := 0;
    while i < |direction|
      invariant 0 <= i <= |direction|
      invariant score == i
      invariant forall j :: 0 <= j < i ==> direction[j] < height
    {
      score := score + 1;
      if direction[i] >= height {
        BlockedView(height, direction, i);
        return;
      }
      i := i + 1;
    }
    OpenView(height, direction);
  }

  /** `get_scenic_score`: the product of the viewing distances to the right,
      to the left, down and up, each list ordered nearest first. */
  function ScenicScore(grid: Grid, x: int, y: int): nat
    requires IsCell(grid, x, y)
  {
    var height := grid[x][y];
    Product(ViewingDistance(height, Right(grid, x, y)),
            ViewingDistance(height, Reversed(Left(grid, x, y))),
            ViewingDistance(height, Down(grid, x, y)),
            ViewingDistance(height, Reversed(Up(grid, x, y))))
  }

  /** The product of four distances: zero exactly when one of them is, and
      growing with each of them. */
  function Product(a: nat, b: nat, c: nat, d: nat): (p: nat)
    ensures p == 0 <==> a == 0 || b == 0 || c == 0 || d == 0
  {
    MultiplyNat(MultiplyNat(MultiplyNat(a, b), c), d)
  }

  function MultiplyNat(a: nat, b: nat): (p: nat)
    ensures p == a * b
    ensures p == 0 <==> a == 0 || b == 0
  {
    a * b
  }

  /** The score is zero exactly when the tree is on the edge. */
  lemma ScoreZeroIffBorder(grid: Grid, x: int, y: int)
    requires IsCell(grid, x, y)
    ensures ScenicScore(grid, x, y) == 0 <==> x == 0 || y == 0 || x == |grid| - 1 || y == |grid[x]| - 1
  {
  }

  /** The score is at most the product of the numbers of trees on the four
      sides. */
  lemma ScoreAtMostTrees(grid: Grid, x: int, y: int)
    requires IsCell(grid, x, y)
    ensures ScenicScore(grid, x, y)
         <= Product(|Right(grid, x, y)|, |Left(grid, x, y)|, |Down(grid, x, y)|, |Up(grid, x, y)|)
  {
    var height := grid[x][y];
    var r := ViewingDistance(height, Right(grid, x, y));
    var l := ViewingDistance(height, Reversed(Left(grid, x, y)));
    var d := ViewingDistance(height, Down(grid, x, y));
    var u := ViewingDistance(height, Reversed(Up(grid, x, y)));
    var a, b, c := |Right(grid, x, y)|, |Left(grid, x, y)|, |Down(grid, x, y)|;
    MonotoneProduct(r, l, a, b);
    MonotoneProduct(MultiplyNat(r, l), d, MultiplyNat(a, b), c);
    MonotoneProduct(MultiplyNat(MultiplyNat(r, l), d), u, MultiplyNat(MultiplyNat(a, b), c), |Up(grid, x, y)|);
  }

  lemma MonotoneProduct(a: nat, b: nat, a': nat, b': nat)
    requires a <= a' && b <= b'
    ensures MultiplyNat(a, b) <= MultiplyNat(a', b')
  {
    assert a * b <= a' * b;
  }

  /** The scores of row `x`, over the first row's width. */
  function RowScores(grid: Grid, x: int): (r: seq<nat>)
    requires Scannable(grid) && 0 <= x < |grid|
    ensures |r| == Width(grid)
    ensures forall y :: 0 <= y < |r| ==> IsCell(grid, x, y) && r[y] == ScenicScore(grid, x, y)
  {
    seq(Width(grid), y requires 0 <= y < Width(grid) => ScannableCell(grid, x, y); ScenicScore(grid, x, y))
  }

  /** The scores of the first `n` rows in the order the generator yields
      them: row by row. */
  function Scores(grid: Grid, n: nat): (s: seq<nat>)
    requires Scannable(grid) && n <= |grid|
    ensures s == [] <==> n == 0 || Width(grid) == 0
  {
    if n == 0 then [] else Scores(grid, n - 1) + RowScores(grid, n - 1)
  }

  /** The rows of scores of the first `n` rows, one sequence per row. */
  function ScoreTable(grid: Grid, n: nat): (t: seq<seq<nat>>)
    requires Scannable(grid) && n <= |grid|
    ensures |t| == n && forall x :: 0 <= x < n ==> t[x] == RowScores(grid, x)
  {
    seq(n, x requires 0 <= x < n => RowScores(grid, x))
  }

  /** Rows laid end to end. */
  function Joined(rows: seq<seq<nat>>): seq<nat> {
    if rows == [] then [] else Joined(rows[..|rows| - 1]) + rows[|rows| - 1]
  }

  /** `Scores` lays the rows of `ScoreTable` end to end. */
  lemma {:induction false} ScoresJoined(grid: Grid, n: nat)
    requires Scannable(grid) && n <= |grid|
    ensures Scores(grid, n) == Joined(ScoreTable(grid, n))
  {
    if n > 0 {
      ScoresJoined(grid, n - 1);
      var table, front := ScoreTable(grid, n), ScoreTable(grid, n - 1);
      assert table[..n - 1] == front by {
        forall x | 0 <= x < n - 1
          ensures table[..n - 1][x] == front[x]
        {
        }
      }
      JoinedSnoc(table, Scores(grid, n - 1));
      assert Scores(grid, n) == Scores(grid, n - 1) + RowScores(grid, n - 1);
    }
  }

  /** Joining one more row appends it. */
  lemma JoinedSnoc(rows: seq<seq<nat>>, front: seq<nat>)
    requires rows != [] && Joined(rows[..|rows| - 1]) == front
    ensures Joined(rows) == front + rows[|rows| - 1]
  {
  }

  /** Every element of every row is in the joined rows. */
  lemma {:induction false} MemberJoined(rows: seq<seq<nat>>, x: nat, y: nat)
    requires x < |rows| && y < |rows[x]|
    ensures rows[x][y] in Joined(rows)
    decreases |rows|
  {
    var last := |rows| - 1;
    assert Joined(rows) == Joined(rows[..last]) + rows[last];
    if x < last {
      MemberJoined(rows[..last], x, y);
    } else {
      assert rows[last][y] in rows[last];
    }
  }

  /** Every element of the joined rows comes from some row. */
  lemma {:induction false} JoinedMember(rows: seq<seq<nat>>, v: nat) returns (x: nat, y: nat)
    requires v in Joined(rows)
    ensures x < |rows| && y < |rows[x]| && rows[x][y] == v
    decreases |rows|
  {
    var last := |rows| - 1;
    assert Joined(rows) == Joined(rows[..last]) + rows[last];
    if v in Joined(rows[..last]) {
      x, y := JoinedMember(rows[..last], v);
    } else {
      x := last;
      y :| y < |rows[last]| && rows[last][y] == v;
    }
  }

  /** Every tree of the first `n` rows has its score among `Scores`. */
  lemma CellScoresAreScores(grid: Grid, n: nat)
    requires Scannable(grid) && n <= |grid|
    ensures forall x, y :: 0 <= x < n && 0 <= y < Width(grid) ==> IsCell(grid, x, y) && ScenicScore(grid, x, y) in Scores(grid, n)
  {
    ScoresJoined(grid, n);
    var table := ScoreTable(grid, n);
    forall x, y | 0 <= x < n && 0 <= y < Width(grid)
      ensures IsCell(grid, x, y) && ScenicScore(grid, x, y) in Scores(grid, n)
    {
      MemberJoined(table, x, y);
      assert table[x][y] == ScenicScore(grid, x, y);
    }
  }

  /** Every element of `Scores` is the score of a tree of the first `n` rows. */
  lemma ScoresAreCellScores(grid: Grid, n: nat)
    requires Scannable(grid) && n <= |grid|
    ensures forall v :: v in Scores(grid, n) ==>
              exists x, y :: 0 <= x < n && 0 <= y < Width(grid) && IsCell(grid, x, y) && ScenicScore(grid, x, y) == v
  {
    ScoresJoined(grid, n);
    var table := ScoreTable(grid, n);
    forall v | v in Scores(grid, n)
      ensures exists x, y :: 0 <= x < n && 0 <= y < Width(grid) && IsCell(grid, x, y) && ScenicScore(grid, x, y) == v
    {
      var x, y := JoinedMember(table, v);
      assert IsCell(grid, x, y) && table[x][y] == ScenicScore(grid, x, y);
    }
  }

  /** The largest element, `None` for an empty sequence as `max` raises on
      an empty iterable. */
  function Max(s: seq<nat>): (r: Option<nat>)
    ensures r == None <==> s == []
    ensures r.Some? ==> r.value in s
    ensures r.Some? ==> forall v :: v in s ==> v <= r.value
  {
    if s == [] then None
    else
      match Max(s[1..])
      case None => Some(s[0])
      case Some(m) =>
        assert forall v :: v in s ==> v == s[0] || v in s[1..];
        if s[0] < m then Some(m) else Some(s[0])
  }

  /** `get_max_scenic_score`: the best score over every tree of the first
      row's width; `None` where the generator is empty. */
  function GetMaxScenicScore(grid: Grid): Option<nat>
    requires Scannable(grid)
  {
    Max(Scores(grid, |grid|))
  }

  /** The best score is the score of a tree and no tree scores more; there
      is one exactly when the grid has a tree. */
  lemma MaxScenicScoreIsBest(grid: Grid)
    requires Scannable(grid)
    ensures GetMaxScenicScore(grid).Some? <==> |grid| > 0 && Width(grid) > 0
    ensures GetMaxScenicScore(grid).Some? ==>
              var best := GetMaxScenicScore(grid).value;
              (exists x, y :: 0 <= x < |grid| && 0 <= y < Width(grid) && IsCell(grid, x, y) && ScenicScore(grid, x, y) == best)
              && (forall x, y :: 0 <= x < |grid| && 0 <= y < Width(grid) ==> IsCell(grid, x, y) && ScenicScore(grid, x, y) <= best)
  {
    CellScoresAreScores(grid, |grid|);
    ScoresAreCellScores(grid, |grid|);
  }

  /** Building a tree's score from the four lists beside it. */
  lemma ScoreBySides(grid: Grid, x: int, y: int, right: seq<int>, left: seq<int>, down: seq<int>, up: seq<int>)
    requires IsCell(grid, x, y)
    requires Right(grid, x, y) == right && Reversed(Left(grid, x, y)) == left
    requires Down(grid, x, y) == down && Reversed(Up(grid, x, y)) == up
    ensures ScenicScore(grid, x, y)
         == ViewingDistance(grid[x][y], right) * ViewingDistance(grid[x][y], left)
            * ViewingDistance(grid[x][y], down) * ViewingDistance(grid[x][y], up)
  {
  }

  /** The columns of the sample grid. */
  lemma SampleColumns()
    ensures Column(Sample, 0) == [3, 2, 6, 3, 3]
    ensures Column(Sample, 1) == [0, 5, 5, 3, 5]
    ensures Column(Sample, 2) == [3, 5, 3, 5, 3]
    ensures Column(Sample, 3) == [7, 1, 3, 4, 9]
    ensures Column(Sample, 4) == [3, 2, 2, 9, 0]
  {
    SampleHasColumns();
  }

  /** The scores of the inner trees of the sample grid; the test checks the
      4 of tree (1, 2). */
  lemma SampleScore11()
    ensures IsCell(Sample, 1, 1) && ScenicScore(Sample, 1, 1) == 1
  {
    SampleHasColumns();
    SampleColumns();
    ScoreBySides(Sample, 1, 1, [5, 1, 2], [2], [5, 3, 5], [0]);
  }

  lemma SampleScore12()
    ensures IsCell(Sample, 1, 2) && ScenicScore(Sample, 1, 2) == 4
  {
    SampleHasColumns();
    SampleColumns();
    ScoreBySides(Sample, 1, 2, [1, 2], [5, 2], [3, 5, 3], [3]);
  }

  lemma SampleScore13()
    ensures IsCell(Sample, 1, 3) && ScenicScore(Sample, 1, 3) == 1
  {
    SampleHasColumns();
    SampleColumns();
    ScoreBySides(Sample, 1, 3, [2], [5, 5, 2], [3, 4, 9], [7]);
  }

  lemma SampleScore21()
    ensures IsCell(Sample, 2, 1) && ScenicScore(Sample, 2, 1) == 6
  {
    SampleHasColumns();
    SampleColumns();
    ScoreBySides(Sample, 2, 1, [3, 3, 2], [6], [3, 5], [5, 0]);
  }

  lemma SampleScore22()
    ensures IsCell(Sample, 2, 2) && ScenicScore(Sample, 2, 2) == 1
  {
    SampleHasColumns();
    SampleColumns();
    ScoreBySides(Sample, 2, 2, [3, 2], [5, 6], [5, 3], [5, 3]);
  }

  lemma SampleScore23()
    ensures IsCell(Sample, 2, 3) && ScenicScore(Sample, 2, 3) == 2
  {
    SampleHasColumns();
    SampleColumns();
    ScoreBySides(Sample, 2, 3, [2], [3, 5, 6], [4, 9], [1, 7]);
  }

  lemma SampleScore31()
    ensures IsCell(Sample, 3, 1) && ScenicScore(Sample, 3, 1) == 1
  {
    SampleHasColumns();
    SampleColumns();
    ScoreBySides(Sample, 3, 1, [5, 4, 9], [3], [5], [5, 5, 0]);
  }

  lemma SampleScore32()
    ensures IsCell(Sample, 3, 2) && ScenicScore(Sample, 3, 2) == 8
  {
    SampleHasColumns();
    SampleColumns();
    ScoreBySides(Sample, 3, 2, [4, 9], [3, 3], [3], [3, 5, 3]);
  }

  lemma SampleScore33()
    ensures IsCell(Sample, 3, 3) && ScenicScore(Sample, 3, 3) == 3
  {
    SampleHasColumns();
    SampleColumns();
    ScoreBySides(Sample, 3, 3, [9], [5, 3, 3], [9], [3, 1, 7]);
  }

  /** The best of two non-empty stretches is the better of their bests. */
  lemma MaxOfConcat(a: seq<nat>, b: seq<nat>, p: nat, q: nat)
    requires Max(a) == Some(p) && Max(b) == Some(q)
    ensures Max(a + b) == Some(Larger(p, q))
  {
    var best := Larger(p, q);
    assert best in a + b;
    MaxOfBound(a + b, best);
  }

  function Larger(p: nat, q: nat): nat {
    if p < q then q else p
  }

  /** The best of five scores. */
  lemma MaxOfFive(a: nat, b: nat, c: nat, d: nat, e: nat)
    ensures Max([a, b, c, d, e]) == Some(Larger(a, Larger(b, Larger(c, Larger(d, e)))))
  {
    assert [e][1..] == [];
    assert Max([e]) == Some(e);
    assert [d, e][1..] == [e];
    assert Max([d, e]) == Some(Larger(d, e));
    assert [c, d, e][1..] == [d, e];
    assert Max([c, d, e]) == Some(Larger(c, Larger(d, e)));
    assert [b, c, d, e][1..] == [c, d, e];
    assert Max([b, c, d, e]) == Some(Larger(b, Larger(c, Larger(d, e))));
    assert [a, b, c, d, e][1..] == [b, c, d, e];
  }

  /** An element that bounds all the others is the largest. */
  lemma MaxOfBound(s: seq<nat>, best: nat)
    requires best in s && forall v :: v in s ==> v <= best
    ensures Max(s) == Some(best)
  {
  }

  /** The scores of a grid of five rows, from the scores of each row. */
  lemma {:induction false} ScoresOfFiveRows(grid: Grid, r0: seq<nat>, r1: seq<nat>, r2: seq<nat>, r3: seq<nat>, r4: seq<nat>)
    requires Scannable(grid) && |grid| == 5
    requires RowScores(grid, 0) == r0 && RowScores(grid, 1) == r1 && RowScores(grid, 2) == r2
    requires RowScores(grid, 3) == r3 && RowScores(grid, 4) == r4
    ensures Scores(grid, 5) == r0 + r1 + r2 + r3 + r4
  {
    assert Scores(grid, 0) == [];
    assert Scores(grid, 1) == r0;
    assert Scores(grid, 2) == r0 + r1;
    assert Scores(grid, 3) == r0 + r1 + r2;
    assert Scores(grid, 4) == r0 + r1 + r2 + r3;
  }

  /** Row by row, the scores of the sample grid. */
  lemma SampleTopScores()
    ensures RowScores(Sample, 0) == [0, 0, 0, 0, 0]
  {
    SampleHasColumns();
    ScoreZeroIffBorder(Sample, 0, 0);
    ScoreZeroIffBorder(Sample, 0, 1);
    ScoreZeroIffBorder(Sample, 0, 2);
    ScoreZeroIffBorder(Sample, 0, 3);
    ScoreZeroIffBorder(Sample, 0, 4);
    var r := RowScores(Sample, 0);
    assert r[0] == ScenicScore(Sample, 0, 0) && r[1] == ScenicScore(Sample, 0, 1) && r[2] == ScenicScore(Sample, 0, 2);
    assert r[3] == ScenicScore(Sample, 0, 3) && r[4] == ScenicScore(Sample, 0, 4);
    FiveElements(r, 0, 0, 0, 0, 0);
  }

  lemma SampleSecondScores()
    ensures RowScores(Sample, 1) == [0, 1, 4, 1, 0]
  {
    SampleHasColumns();
    ScoreZeroIffBorder(Sample, 1, 0);
    SampleScore11();
    SampleScore12();
    SampleScore13();
    ScoreZeroIffBorder(Sample, 1, 4);
    var r := RowScores(Sample, 1);
    assert r[0] == ScenicScore(Sample, 1, 0) && r[1] == ScenicScore(Sample, 1, 1) && r[2] == ScenicScore(Sample, 1, 2);
    assert r[3] == ScenicScore(Sample, 1, 3) && r[4] == ScenicScore(Sample, 1, 4);
    FiveElements(r, 0, 1, 4, 1, 0);
  }

  lemma SampleMiddleScores()
    ensures RowScores(Sample, 2) == [0, 6, 1, 2, 0]
  {
    SampleHasColumns();
    ScoreZeroIffBorder(Sample, 2, 0);
    SampleScore21();
    SampleScore22();
    SampleScore23();
    ScoreZeroIffBorder(Sample, 2, 4);
    var r := RowScores(Sample, 2);
    assert r[0] == ScenicScore(Sample, 2, 0) && r[1] == ScenicScore(Sample, 2, 1) && r[2] == ScenicScore(Sample, 2, 2);
    assert r[3] == ScenicScore(Sample, 2, 3) && r[4] == ScenicScore(Sample, 2, 4);
    FiveElements(r, 0, 6, 1, 2, 0);
  }

  lemma SampleFourthScores()
    ensures RowScores(Sample, 3) == [0, 1, 8, 3, 0]
  {
    SampleHasColumns();
    ScoreZeroIffBorder(Sample, 3, 0);
    SampleScore31();
    SampleScore32();
    SampleScore33();
    ScoreZeroIffBorder(Sample, 3, 4);
    var r := RowScores(Sample, 3);
    assert r[0] == ScenicScore(Sample, 3, 0) && r[1] == ScenicScore(Sample, 3, 1) && r[2] == ScenicScore(Sample, 3, 2);
    assert r[3] == ScenicScore(Sample, 3, 3) && r[4] == ScenicScore(Sample, 3, 4);
    FiveElements(r, 0, 1, 8, 3, 0);
  }

  lemma SampleBottomScores()
    ensures RowScores(Sample, 4) == [0, 0, 0, 0, 0]
  {
    SampleHasColumns();
    ScoreZeroIffBorder(Sample, 4, 0);
    ScoreZeroIffBorder(Sample, 4, 1);
    ScoreZeroIffBorder(Sample, 4, 2);
    ScoreZeroIffBorder(Sample, 4, 3);
    ScoreZeroIffBorder(Sample, 4, 4);
    var r := RowScores(Sample, 4);
    assert r[0] == ScenicScore(Sample, 4, 0) && r[1] == ScenicScore(Sample, 4, 1) && r[2] == ScenicScore(Sample, 4, 2);
    assert r[3] == ScenicScore(Sample, 4, 3) && r[4] == ScenicScore(Sample, 4, 4);
    FiveElements(r, 0, 0, 0, 0, 0);
  }

  lemma SampleRowMaxima()
    ensures Max([0, 0, 0, 0, 0]) == Some(0)
    ensures Max([0, 1, 4, 1, 0]) == Some(4)
    ensures Max([0, 6, 1, 2, 0]) == Some(6)
    ensures Max([0, 1, 8, 3, 0]) == Some(8)
  {
    MaxOfFive(0, 0, 0, 0, 0);
    MaxOfFive(0, 1, 4, 1, 0);
    MaxOfFive(0, 6, 1, 2, 0);
    MaxOfFive(0, 1, 8, 3, 0);
  }

  /** The test's best score: 8, the score of tree (3, 2). */
  lemma SampleMaxScenicScore()
    ensures GetMaxScenicScore(Sample) == Some(8)
  {
    SampleTopScores();
    SampleSecondScores();
    SampleMiddleScores();
    SampleFourthScores();
    SampleBottomScores();
    var r0, r1, r2, r3, r4 := [0, 0, 0, 0, 0], [0, 1, 4, 1, 0], [0, 6, 1, 2, 0], [0, 1, 8, 3, 0], [0, 0, 0, 0, 0];
    ScoresOfFiveRows(Sample, r0, r1, r2, r3, r4);
    SampleRowMaxima();
    MaxOfConcat(r0, r1, 0, 4);
    MaxOfConcat(r0 + r1, r2, 4, 6);
    MaxOfConcat(r0 + r1 + r2, r3, 6, 8);
    MaxOfConcat(r0 + r1 + r2 + r3, r4, 8, 0);
  }
}
