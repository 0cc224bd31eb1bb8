/** Counting the `true` entries of a matrix of flags, row by row, and the
    set of their positions: the bookkeeping behind a `sum(1 for x ... for y
    ... if ...)` over a grid. */
module Counting {
  /** The number of `true` flags of a row. */
  function CountTrue(flags: seq<bool>): (r: nat)
    ensures r <= |flags|
  {
    if flags == [] then 0
    else CountTrue(flags[..|flags| - 1]) + (if flags[|flags| - 1] then 1 else 0)
  }

  /** The number of `true` flags of the first `n` rows. */
  function CountRowsTrue(matrix: seq<seq<bool>>, n: nat): nat
    requires n <= |matrix|
  {
    if n == 0 then 0 else CountRowsTrue(matrix, n - 1) + CountTrue(matrix[n - 1])
  }

  /** Where the `true` flags of a row are, paired with the row's index `x`. */
  function RowCells(flags: seq<bool>, x: int): set<(int, int)> {
    set y | 0 <= y < |flags| && flags[y] :: (x, y)
  }

  /** Where the `true` flags of the first `n` rows are. */
  function TrueCells(matrix: seq<seq<bool>>, n: nat): set<(int, int)>
    requires n <= |matrix|
  {
    set x, y | 0 <= x < n && 0 <= y < |matrix[x]| && matrix[x][y] :: (x, y)
  }

  lemma {:induction false} CountTrueIsSize(flags: seq<bool>, x: int)
    ensures CountTrue(flags) == |RowCells(flags, x)|
    decreases |flags|
  {
    if flags != [] {
      var front := flags[..|flags| - 1];
      CountTrueIsSize(front, x);
      var last: set<(int, int)> := if flags[|flags| - 1] then {(x, |flags| - 1)} else {};
      assert RowCells(flags, x) == RowCells(front, x) + last;
      assert (x, |flags| - 1) !in RowCells(front, x);
    }
  }

  /** The row-by-row count is the number of positions of `true` flags. */
  lemma {:induction false} CountRowsIsSize(matrix: seq<seq<bool>>, n: nat)
    requires n <= |matrix|
    ensures CountRowsTrue(matrix, n) == |TrueCells(matrix, n)|
  {
    if n > 0 {
      CountRowsIsSize(matrix, n - 1);
      var row := RowCells(matrix[n - 1], n - 1);
      CountTrueIsSize(matrix[n - 1], n - 1);
      var before := TrueCells(matrix, n - 1);
      var all := TrueCells(matrix, n);
      forall p | p in all
        ensures p in before + row
      {
        if p.0 < n - 1 {
          assert p in before;
        }
      }
      assert all == before + row;
      forall p | p in row
        ensures p !in before
      {
      }
      assert before * row == {};
    }
  }

  /** Every row adds at most its width. */
  lemma {:induction false} CountRowsBound(matrix: seq<seq<bool>>, n: nat, width: nat)
    requires n <= |matrix| && forall x :: 0 <= x < |matrix| ==> |matrix[x]| == width
    ensures CountRowsTrue(matrix, n) <= n * width
  {
    if n > 0 {
      CountRowsBound(matrix, n - 1, width);
      assert (n - 1) * width + width == n * width;
    }
  }

  /** The count of five rows, row by row. */
  lemma CountFiveRows(matrix: seq<seq<bool>>)
    requires |matrix| == 5
    ensures CountRowsTrue(matrix, 5)
         == CountTrue(matrix[0]) + CountTrue(matrix[1]) + CountTrue(matrix[2]) + CountTrue(matrix[3]) + CountTrue(matrix[4])
  {
    assert CountRowsTrue(matrix, 1) == CountTrue(matrix[0]);
    assert CountRowsTrue(matrix, 2) == CountRowsTrue(matrix, 1) + CountTrue(matrix[1]);
    assert CountRowsTrue(matrix, 3) == CountRowsTrue(matrix, 2) + CountTrue(matrix[2]);
    assert CountRowsTrue(matrix, 4) == CountRowsTrue(matrix, 3) + CountTrue(matrix[3]);
  }

  function Bit(flag: bool): nat {
    if flag then 1 else 0
  }

  /** The count of a row of five flags. */
  lemma CountFive(a: bool, b: bool, c: bool, d: bool, e: bool)
    ensures CountTrue([a, b, c, d, e]) == Bit(a) + Bit(b) + Bit(c) + Bit(d) + Bit(e)
  {
    assert [a][..0] == [];
    assert CountTrue([a]) == Bit(a);
    assert [a, b][..1] == [a];
    assert CountTrue([a, b]) == Bit(a) + Bit(b);
    assert [a, b, c][..2] == [a, b];
    assert CountTrue([a, b, c]) == Bit(a) + Bit(b) + Bit(c);
    assert [a, b, c, d][..3] == [a, b, c];
    assert CountTrue([a, b, c, d]) == Bit(a) + Bit(b) + Bit(c) + Bit(d);
    assert [a, b, c, d, e][..4] == [a, b, c, d];
  }
}
