/** The board and the active piece: a grid of cells, a piece matrix placed at
    an anchor, the one-step projections of the piece, and the collision test
    the game runs before every move. */
module Board {
  import opened Options
  import opened Matrices

  /** Board height and width of the game. */
  const ROWS: nat := 24
  const COLS: nat := 10

  /** Board cells, row 0 at the top; 0 is an empty cell. */
  type Grid = seq<seq<int>>

  /** `g` has the game's board dimensions. */
  predicate IsBoard(g: Grid) {
    |g| == ROWS && forall r :: 0 <= r < |g| ==> |g[r]| == COLS
  }

  /** The board the game starts with (and, as no code writes to it, keeps):
      `ROWS` rows of `COLS` empty cells. */
  function EmptyGrid(): (g: Grid)
    ensures IsBoard(g)
    ensures forall r, c :: 0 <= r < ROWS && 0 <= c < COLS ==> g[r][c] == 0
  {
    seq(ROWS, _ => seq(COLS, _ => 0))
  }

  /** Reading `grid[r]?.[c]`: a row or column index outside the grid, negative
      ones included, reads as absent rather than as a cell. */
  function Lookup(g: Grid, r: int, c: int): (v: Option<int>)
    ensures v.Some? <==> 0 <= r < |g| && 0 <= c < |g[r]|
    ensures v.Some? ==> v.value == g[r][c]
  {
    if 0 <= r < |g| && 0 <= c < |g[r]| then Some(g[r][c]) else None
  }

  /** A piece cell may occupy (r, c) only when it reads as exactly 0: an
      absent cell is not 0, so it blocks like an occupied one. */
  predicate IsFree(g: Grid, r: int, c: int) {
    Lookup(g, r, c) == Some(0)
  }

  /** The board position of a piece matrix's top-left cell. */
  datatype Anchor = Anchor(row: int, col: int)

  /** The active piece: its cell matrix and where it sits on the board. */
  datatype Shape = Shape(matrix: Matrix, anchor: Anchor) {

    /** The piece turned a quarter clockwise about its matrix's top-left
        corner: the matrix is replaced, the anchor stays. */
    function Rotated(): (s: Shape)
      requires IsMatrix(matrix)
      ensures s.anchor == anchor
      ensures IsMatrix(s.matrix) && IsQuarterTurn(s.matrix, matrix)
    {
      Shape(RotatedMatrix(matrix), anchor)
    }
  }

  /** The four moves the game tests a piece against. */
  datatype Direction = Left | Down | Right | Rotate

  /** Every occupied cell of `m`, placed with the matrix's top-left corner at
      `a`, lands on a free cell of `g`. */
  predicate Fits(g: Grid, m: Matrix, a: Anchor) {
    forall r, c :: 0 <= r < |m| && 0 <= c < |m[r]| && m[r][c] != 0 ==> IsFree(g, a.row + r, a.col + c)
  }

  /** The piece sits entirely on free cells of the board. */
  predicate ShapeFits(g: Grid, s: Shape) {
    Fits(g, s.matrix, s.anchor)
  }

  /** The piece as it would be after one move in direction `d`: a translation
      moves the anchor one cell and keeps the matrix; a rotation turns the
      matrix and keeps the anchor. */
  function Projected(s: Shape, d: Direction): (p: Shape)
    requires IsMatrix(s.matrix)
    ensures IsMatrix(p.matrix)
    ensures d != Rotate ==> p.matrix == s.matrix
    ensures d == Rotate ==> p.anchor == s.anchor && IsQuarterTurn(p.matrix, s.matrix)
    ensures p.anchor.row == s.anchor.row + (if d == Down then 1 else 0)
    ensures p.anchor.col == s.anchor.col + (if d == Left then -1 else if d == Right then 1 else 0)
  {
    match d
    case Left => Shape(s.matrix, Anchor(s.anchor.row, s.anchor.col - 1))
    case Down => Shape(s.matrix, Anchor(s.anchor.row + 1, s.anchor.col))
    case Right => Shape(s.matrix, Anchor(s.anchor.row, s.anchor.col + 1))
    case Rotate => Shape(RotatedMatrix(s.matrix), s.anchor)
  }

  /** The row-major scan of the collision test, resumed at (row, col): skip
      empty cells, stop with true at the first occupied cell whose board
      position is not free, and end with false after the last row. Rows are
      scanned as wide as row 0. */
  function ScanCells(g: Grid, m: Matrix, a: Anchor, row: nat, col: nat): (b: bool)
    requires IsMatrix(m) && row <= |m| && col <= |m[0]|
    ensures b <==> exists r, c :: row <= r < |m| && 0 <= c < |m[0]| && (r > row || c >= col)
                                  && m[r][c] != 0 && !IsFree(g, a.row + r, a.col + c)
    decreases |m| - row, |m[0]| - col
  {
    if row == |m| then false
    else if col == |m[0]| then ScanCells(g, m, a, row + 1, 0)
    else if m[row][col] == 0 then ScanCells(g, m, a, row, col + 1)
    else if Lookup(g, a.row + row, a.col + col) != Some(0) then true
    else ScanCells(g, m, a, row, col + 1)
  }

  /** The game's collision test: does the piece, projected one move in
      direction `d`, put an occupied cell anywhere it may not be? Nothing is
      changed; the answer is exactly that the projection does not fit. */
  function HasCollision(g: Grid, s: Shape, d: Direction): (b: bool)
    requires IsMatrix(s.matrix)
    ensures b <==> !ShapeFits(g, Projected(s, d))
  {
    var p := Projected(s, d);
    ScanCells(g, p.matrix, p.anchor, 0, 0)
  }

  /** On a board of the game's dimensions, a move collides exactly when some
      occupied cell of the projected piece lands outside rows [0, ROWS) or
      columns [0, COLS), or on a board cell that is not 0. */
  lemma CollisionOnBoard(g: Grid, s: Shape, d: Direction)
    requires IsBoard(g) && IsMatrix(s.matrix)
    ensures var p := Projected(s, d);
            HasCollision(g, s, d) <==>
              exists r, c :: 0 <= r < |p.matrix| && 0 <= c < |p.matrix[r]| && p.matrix[r][c] != 0 &&
                             (var br, bc := p.anchor.row + r, p.anchor.col + c;
                              !(0 <= br < ROWS) || !(0 <= bc < COLS) || g[br][bc] != 0)
  {
  }

  /** `m1` and `m2` have the same dimensions and are occupied in the same
      places. */
  predicate SameOccupancy(m1: Matrix, m2: Matrix) {
    && |m1| == |m2|
    && (forall r :: 0 <= r < |m1| ==> |m1[r]| == |m2[r]|)
    && forall r, c :: 0 <= r < |m1| && 0 <= c < |m1[r]| ==> (m1[r][c] != 0 <==> m2[r][c] != 0)
  }

  /** Matrices occupied in the same places are still so after a quarter turn. */
  lemma TurnKeepsSameOccupancy(m1: Matrix, m2: Matrix)
    requires IsMatrix(m1) && IsMatrix(m2) && SameOccupancy(m1, m2)
    ensures SameOccupancy(RotatedMatrix(m1), RotatedMatrix(m2))
  {
    var q1, q2 := RotatedMatrix(m1), RotatedMatrix(m2);
    forall r, c | 0 <= r < |q1| && 0 <= c < |q1[r]|
      ensures q1[r][c] != 0 <==> q2[r][c] != 0
    {
      var i := |m1| - 1 - c;
      assert q1[r][|m1| - 1 - i] == m1[i][r];
      assert q2[r][|m2| - 1 - i] == m2[i][r];
    }
  }

  /** Empty piece cells never cause a collision: two pieces at the same anchor
      whose matrices are occupied in the same places collide alike. */
  lemma OnlyOccupiedCellsCollide(g: Grid, m1: Matrix, m2: Matrix, a: Anchor, d: Direction)
    requires IsMatrix(m1) && IsMatrix(m2) && SameOccupancy(m1, m2)
    ensures HasCollision(g, Shape(m1, a), d) == HasCollision(g, Shape(m2, a), d)
  {
    if d == Rotate {
      TurnKeepsSameOccupancy(m1, m2);
    }
    var p1, p2 := Projected(Shape(m1, a), d), Projected(Shape(m2, a), d);
    assert SameOccupancy(p1.matrix, p2.matrix) && p1.anchor == p2.anchor;
  }

  /** The collision test reads only the board cells under occupied cells of
      the projected piece: boards that agree there give the same answer. */
  lemma CollisionReadsOnlyCoveredCells(g1: Grid, g2: Grid, s: Shape, d: Direction)
    requires IsMatrix(s.matrix)
    requires var p := Projected(s, d);
             forall r, c :: 0 <= r < |p.matrix| && 0 <= c < |p.matrix[r]| && p.matrix[r][c] != 0 ==>
               Lookup(g1, p.anchor.row + r, p.anchor.col + c) == Lookup(g2, p.anchor.row + r, p.anchor.col + c)
    ensures HasCollision(g1, s, d) == HasCollision(g2, s, d)
  {
  }

  /** Moving one column left and then one column right, or the reverse,
      restores the piece. */
  lemma SideStepsUndo(s: Shape)
    requires IsMatrix(s.matrix)
    ensures Projected(Projected(s, Left), Right) == s
    ensures Projected(Projected(s, Right), Left) == s
  {
  }

  /** Four projected quarter turns restore the piece. */
  lemma FourTurnsUndo(s: Shape)
    requires IsMatrix(s.matrix)
    ensures Projected(Projected(Projected(Projected(s, Rotate), Rotate), Rotate), Rotate) == s
  {
    RotateFourTimes(s.matrix);
  }
}
