/** Integer cell matrices and the clockwise quarter turn the game applies to
    its pieces: transpose first, then reverse every row of the transpose. */
module Matrices {

  /** A piece matrix, row-major: `m[row][col]`; 0 is an empty cell. */
  type Matrix = seq<seq<int>>

  /** The shape every matrix the game handles has: at least one row, a
      non-empty first row, and every row as wide as the first. The game reads
      `matrix[0]` for the width, so these are what its code relies on. */
  predicate IsMatrix(m: Matrix) {
    && |m| > 0
    && |m[0]| > 0
    && forall i :: 0 <= i < |m| ==> |m[i]| == |m[0]|
  }

  /** Every row of `m` has exactly `w` cells. */
  predicate RowsOfWidth(m: Matrix, w: nat) {
    forall i :: 0 <= i < |m| ==> |m[i]| == w
  }

  /** Reverses a row in the way an array's in-place reverse does. */
  function Reverse(s: seq<int>): (r: seq<int>)
    ensures |r| == |s|
    ensures forall k :: 0 <= k < |s| ==> r[k] == s[|s| - 1 - k]
  {
    if |s| == 0 then [] else Reverse(s[1..]) + [s[0]]
  }

  /** Appends the cell `x[j]` to row `j` of `t`, for every `j`. */
  function PushColumn(t: Matrix, x: seq<int>): (u: Matrix)
    requires |t| == |x|
    ensures |u| == |t|
    ensures forall j :: 0 <= j < |t| ==> u[j] == t[j] + [x[j]]
  {
    seq(|t|, j requires 0 <= j < |t| => t[j] + [x[j]])
  }

  /** The transpose of `m`, whose rows all have width `w`, built row by row
      of `m` in the order the game's nested loop pushes the cells: `w` result
      rows, and row `i` of `m` contributes the `i`-th cell of each of them. */
  function Transpose(m: Matrix, w: nat): (t: Matrix)
    requires RowsOfWidth(m, w)
    ensures |t| == w
    ensures forall j :: 0 <= j < w ==> |t[j]| == |m|
    ensures forall i, j :: 0 <= i < |m| && 0 <= j < w ==> t[j][i] == m[i][j]
    decreases |m|
  {
    if |m| == 0 then seq(w, _ => [])
    else PushColumn(Transpose(m[..|m| - 1], w), m[|m| - 1])
  }

  /** Reverses every row of `t`. */
  function ReverseRows(t: Matrix): (u: Matrix)
    ensures |u| == |t|
    ensures forall j :: 0 <= j < |t| ==> u[j] == Reverse(t[j])
  {
    seq(|t|, j requires 0 <= j < |t| => Reverse(t[j]))
  }

  /** The game's quarter turn: transpose, then reverse each row. An R-by-C
      matrix becomes C-by-R and the cell at (i, j) moves to (j, R-1-i), which
      is a clockwise turn. */
  function RotatedMatrix(m: Matrix): (r: Matrix)
    requires IsMatrix(m)
    ensures IsMatrix(r)
    ensures IsQuarterTurn(r, m)
  {
    ReverseRows(Transpose(m, |m[0]|))
  }

  /** The cells of a matrix as a multiset of values, row by row. */
  function Cells(m: Matrix): multiset<int>
    decreases |m|
  {
    if |m| == 0 then multiset{} else Cells(m[..|m| - 1]) + multiset(m[|m| - 1])
  }

  /** The number of non-zero entries of a row. */
  function RowNonZero(s: seq<int>): nat
    decreases |s|
  {
    if |s| == 0 then 0 else RowNonZero(s[..|s| - 1]) + (if s[|s| - 1] != 0 then 1 else 0)
  }

  /** The number of occupied (non-zero) cells of a matrix. */
  function NonZeroCount(m: Matrix): nat
    decreases |m|
  {
    if |m| == 0 then 0 else NonZeroCount(m[..|m| - 1]) + RowNonZero(m[|m| - 1])
  }

  /** The transposing double loop of `getRotatedMatrix`: one empty result
      row per column of `m`, then `m[i][j]` pushed onto result row `j`. */
  method TransposeByPushing(m: Matrix) returns (result: Matrix)
    requires IsMatrix(m)
    ensures result == Transpose(m, |m[0]|)
  {
    var rowCount := |m[0]|;
    result := seq(rowCount, _ => []);
    var i := 0;
    while i < |m|
      invariant 0 <= i <= |m|
      invariant result == Transpose(m[..i], rowCount)
    {
      var before := result;
      var j := 0;
      while j < |m[i]|
        invariant 0 <= j <= rowCount
        invariant |result| == rowCount
        invariant forall k :: 0 <= k < j ==> result[k] == before[k] + [m[i][k]]
        invariant forall k :: j <= k < rowCount ==> result[k] == before[k]
      {
        result := result[j := result[j] + [m[i][j]]];
        j := j + 1;
      }
      assert m[..i + 1][..i] == m[..i];
      assert result == PushColumn(before, m[i]);
      i := i + 1;
    }
    assert m[..|m|] == m;
  }

  /** The second loop of `getRotatedMatrix`: reverse every row in place. */
  method ReverseEachRow(t: Matrix) returns (result: Matrix)
    ensures result == ReverseRows(t)
  {
    result := t;
    var i := 0;
    while i < |result|
      invariant 0 <= i <= |result| == |t|
      invariant forall k :: 0 <= k < i ==> result[k] == Reverse(t[k])
      invariant forall k :: i <= k < |t| ==> result[k] == t[k]
    {
      result := result[i := Reverse(result[i])];
      i := i + 1;
    }
  }

  /** The game's `getRotatedMatrix`: transpose by pushing, then reverse each
      row. It computes the clockwise quarter turn. */
  method GetRotatedMatrix(m: Matrix) returns (result: Matrix)
    requires IsMatrix(m)
    ensures result == RotatedMatrix(m)
    ensures IsQuarterTurn(result, m)
  {
    var transposed := TransposeByPushing(m);
    result := ReverseEachRow(transposed);
  }

  /** `r` holds `m` turned a quarter clockwise: `m` is R-by-C, `r` is C-by-R,
      and the cell at (i, j) of `m` sits at (j, R-1-i) of `r`. */
  predicate IsQuarterTurn(r: Matrix, m: Matrix) {
    && IsMatrix(m)
    && |r| == |m[0]|
    && (forall j :: 0 <= j < |r| ==> |r[j]| == |m|)
    && forall i, j :: 0 <= i < |m| && 0 <= j < |m[0]| ==> r[j][|m| - 1 - i] == m[i][j]
  }

  /** `h` holds `m` turned half way round: the cell at (i, j) of `m` sits at
      (R-1-i, C-1-j) of `h`. */
  predicate IsHalfTurn(h: Matrix, m: Matrix) {
    && IsMatrix(m)
    && |h| == |m|
    && (forall i :: 0 <= i < |h| ==> |h[i]| == |m[0]|)
    && forall i, j :: 0 <= i < |m| && 0 <= j < |m[0]| ==> h[|m| - 1 - i][|m[0]| - 1 - j] == m[i][j]
  }

  /** The quarter turn of a matrix is determined cell by cell: any matrix laid
      out as a quarter turn of `m` is the one the game computes. */
  lemma QuarterTurnUnique(r: Matrix, m: Matrix)
    requires IsQuarterTurn(r, m)
    ensures r == RotatedMatrix(m)
  {
    var q := RotatedMatrix(m);
    forall j | 0 <= j < |r|
      ensures r[j] == q[j]
    {
      forall k | 0 <= k < |m|
        ensures r[j][k] == q[j][k]
      {
        var i := |m| - 1 - k;
        assert r[j][|m| - 1 - i] == m[i][j];
      }
    }
  }

  /** Worked instance of the turn: [[a, b], [c, d]] becomes [[c, a], [d, b]]. */
  lemma RotateTwoByTwo(a: int, b: int, c: int, d: int)
    ensures RotatedMatrix([[a, b], [c, d]]) == [[c, a], [d, b]]
  {
    var m: Matrix := [[a, b], [c, d]];
    var r: Matrix := [[c, a], [d, b]];
    assert IsMatrix(m);
    forall i, j | 0 <= i < |m| && 0 <= j < |m[0]|
      ensures r[j][|m| - 1 - i] == m[i][j]
    {
      if i == 0 && j == 0 {
      } else if i == 0 {
      } else if j == 0 {
      } else {
      }
    }
    QuarterTurnUnique(r, m);
  }

  /** A quarter turn of a quarter turn is a half turn. */
  lemma QuarterTurnTwice(m: Matrix, q: Matrix, h: Matrix)
    requires IsQuarterTurn(q, m) && IsMatrix(q) && IsQuarterTurn(h, q)
    ensures IsHalfTurn(h, m)
  {
    forall i, j | 0 <= i < |m| && 0 <= j < |m[0]|
      ensures h[|m| - 1 - i][|m[0]| - 1 - j] == m[i][j]
    {
      assert q[j][|m| - 1 - i] == m[i][j];
      assert h[|m| - 1 - i][|q| - 1 - j] == q[j][|m| - 1 - i];
    }
  }

  /** Two of the game's quarter turns make a half turn. */
  lemma RotateTwice(m: Matrix)
    requires IsMatrix(m)
    ensures IsHalfTurn(RotatedMatrix(RotatedMatrix(m)), m)
  {
    var q := RotatedMatrix(m);
    QuarterTurnTwice(m, q, RotatedMatrix(q));
  }

  /** Two half turns give back the starting matrix. */
  lemma HalfTurnTwice(m: Matrix, h: Matrix, r: Matrix)
    requires IsHalfTurn(h, m) && IsHalfTurn(r, h)
    ensures r == m
  {
    forall i | 0 <= i < |m|
      ensures r[i] == m[i]
    {
      forall j | 0 <= j < |m[0]|
        ensures r[i][j] == m[i][j]
      {
        var i', j' := |m| - 1 - i, |m[0]| - 1 - j;
        assert h[i'][j'] == m[i][j];
        assert r[|h| - 1 - i'][|h[0]| - 1 - j'] == h[i'][j'];
      }
    }
  }

  /** Four quarter turns give back the original matrix, cell for cell. */
  lemma RotateFourTimes(m: Matrix)
    requires IsMatrix(m)
    ensures RotatedMatrix(RotatedMatrix(RotatedMatrix(RotatedMatrix(m)))) == m
  {
    var h := RotatedMatrix(RotatedMatrix(m));
    RotateTwice(m);
    RotateTwice(h);
    HalfTurnTwice(m, h, RotatedMatrix(RotatedMatrix(h)));
  }

  /** Appending a column adds that column's values to the cells. */
  lemma {:induction false} PushColumnCells(t: Matrix, x: seq<int>)
    requires |t| == |x|
    ensures Cells(PushColumn(t, x)) == Cells(t) + multiset(x)
    decreases |t|
  {
    if |t| > 0 {
      var n := |t| - 1;
      var u := PushColumn(t, x);
      assert u[..n] == PushColumn(t[..n], x[..n]);
      PushColumnCells(t[..n], x[..n]);
      assert x == x[..n] + [x[n]];
      assert u[n] == t[n] + [x[n]];
      assert Cells(u) == Cells(u[..n]) + multiset(u[n]);
      assert Cells(t) == Cells(t[..n]) + multiset(t[n]);
    }
  }

  /** A matrix of empty rows holds no cells. */
  lemma {:induction false} EmptyRowsCells(w: nat)
    ensures Cells(seq(w, _ => [])) == multiset{}
    decreases w
  {
    if w > 0 {
      var e: Matrix := seq(w, _ => []);
      assert e[..w - 1] == seq(w - 1, _ => []);
      EmptyRowsCells(w - 1);
    }
  }

  /** Transposing moves cells around without adding or losing any. */
  lemma {:induction false} TransposeCells(m: Matrix, w: nat)
    requires RowsOfWidth(m, w)
    ensures Cells(Transpose(m, w)) == Cells(m)
    decreases |m|
  {
    if |m| == 0 {
      EmptyRowsCells(w);
    } else {
      var n := |m| - 1;
      TransposeCells(m[..n], w);
      PushColumnCells(Transpose(m[..n], w), m[n]);
    }
  }

  /** Reversing a row keeps its values. */
  lemma {:induction false} ReverseKeepsValues(s: seq<int>)
    ensures multiset(Reverse(s)) == multiset(s)
    decreases |s|
  {
    if |s| > 0 {
      ReverseKeepsValues(s[1..]);
      assert s == [s[0]] + s[1..];
    }
  }

  /** Reversing every row keeps the cells. */
  lemma {:induction false} ReverseRowsCells(t: Matrix)
    ensures Cells(ReverseRows(t)) == Cells(t)
    decreases |t|
  {
    if |t| > 0 {
      var n := |t| - 1;
      var u := ReverseRows(t);
      assert u[..n] == ReverseRows(t[..n]);
      ReverseRowsCells(t[..n]);
      assert Cells(u) == Cells(u[..n]) + multiset(u[n]);
      ReverseKeepsValues(t[n]);
    }
  }

  /** A quarter turn preserves the multiset of cell values. */
  lemma RotatePreservesCells(m: Matrix)
    requires IsMatrix(m)
    ensures Cells(RotatedMatrix(m)) == Cells(m)
  {
    TransposeCells(m, |m[0]|);
    ReverseRowsCells(Transpose(m, |m[0]|));
  }

  /** The non-zero entries of a row are all its entries but the zeros. */
  lemma {:induction false} RowNonZeroFromMultiset(s: seq<int>)
    ensures RowNonZero(s) == |multiset(s)| - multiset(s)[0]
    decreases |s|
  {
    if |s| > 0 {
      var n := |s| - 1;
      RowNonZeroFromMultiset(s[..n]);
      assert s == s[..n] + [s[n]];
    }
  }

  /** The occupied cells of a matrix are its cells but the zeros. */
  lemma {:induction false} NonZeroCountFromCells(m: Matrix)
    ensures NonZeroCount(m) == |Cells(m)| - Cells(m)[0]
    decreases |m|
  {
    if |m| > 0 {
      var n := |m| - 1;
      NonZeroCountFromCells(m[..n]);
      RowNonZeroFromMultiset(m[n]);
    }
  }

  /** A quarter turn keeps the number of occupied cells. */
  lemma RotatePreservesNonZeroCount(m: Matrix)
    requires IsMatrix(m)
    ensures NonZeroCount(RotatedMatrix(m)) == NonZeroCount(m)
  {
    RotatePreservesCells(m);
    NonZeroCountFromCells(m);
    NonZeroCountFromCells(RotatedMatrix(m));
  }
}
