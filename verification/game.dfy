/** One fixed-step update of the game: each requested move is tried in the
    order left, right, rotate, down, against the piece as the previous move
    left it, and carried out only when it does not collide. */
module Game {
  import opened Matrices
  import opened Board
  import Input

  /** What an update reads and changes: the active piece and the key map. */
  datatype State = State(shape: Shape, keys: Input.KeyMap)

  /** The key that requests a move in direction `d`; the up arrow rotates. */
  function KeyFor(d: Direction): (k: Input.Key)
    ensures d == Left <==> k == Input.ArrowLeft
    ensures d == Right <==> k == Input.ArrowRight
    ensures d == Down <==> k == Input.ArrowDown
    ensures d == Rotate <==> k == Input.ArrowUp
    ensures k != Input.Space
  {
    match d
    case Left => Input.ArrowLeft
    case Right => Input.ArrowRight
    case Rotate => Input.ArrowUp
    case Down => Input.ArrowDown
  }

  /** Carries out move `d` on the piece the way the game mutates it: a column
      or row anchor step of one, or a quarter turn of the matrix. */
  function Apply(s: Shape, d: Direction): Shape
    requires IsMatrix(s.matrix)
  {
    match d
    case Left => s.(anchor := s.anchor.(col := s.anchor.col - 1))
    case Right => s.(anchor := s.anchor.(col := s.anchor.col + 1))
    case Rotate => s.Rotated()
    case Down => s.(anchor := s.anchor.(row := s.anchor.row + 1))
  }

  /** The move the game carries out is the move its collision test checked. */
  lemma ApplyIsProjection(s: Shape, d: Direction)
    requires IsMatrix(s.matrix)
    ensures Apply(s, d) == Projected(s, d)
  {
  }

  /** The move `d` is requested and would not collide. */
  predicate Acts(g: Grid, st: State, d: Direction)
    requires IsMatrix(st.shape.matrix)
  {
    Input.Held(st.keys, KeyFor(d)) && !HasCollision(g, st.shape, d)
  }

  /** One guarded step of the update: when move `d` is requested and does not
      collide, the piece becomes its projection and only that move's flag is
      cleared; otherwise piece and flags are left as they are. */
  function TryMove(g: Grid, st: State, d: Direction): (r: State)
    requires IsMatrix(st.shape.matrix)
    ensures IsMatrix(r.shape.matrix)
    ensures Acts(g, st, d) ==> r.shape == Projected(st.shape, d)
    ensures Acts(g, st, d) ==> !Input.Held(r.keys, KeyFor(d))
    ensures forall k :: k != KeyFor(d) ==> Input.Held(r.keys, k) == Input.Held(st.keys, k)
    ensures !Acts(g, st, d) ==> r == st
  {
    if Input.Held(st.keys, KeyFor(d)) && !HasCollision(g, st.shape, d) then
      ApplyIsProjection(st.shape, d);
      State(Apply(st.shape, d), Input.WithFlag(st.keys, KeyFor(d), false))
    else
      st
  }

  /** The game's update: left, then right, then rotate, then down, each
      checked against the state the previous step produced. */
  function UpdateGame(g: Grid, st: State): (r: State)
    requires IsMatrix(st.shape.matrix)
    ensures IsMatrix(r.shape.matrix)
    ensures r.keys.space == st.keys.space
    ensures forall k :: Input.Held(r.keys, k) ==> Input.Held(st.keys, k)
  {
    var s1 := TryMove(g, st, Left);
    var s2 := TryMove(g, s1, Right);
    var s3 := TryMove(g, s2, Rotate);
    TryMove(g, s3, Down)
  }

  /** A step never moves a fitting piece into a place where it does not fit. */
  lemma TryMoveKeepsFit(g: Grid, st: State, d: Direction)
    requires IsMatrix(st.shape.matrix) && ShapeFits(g, st.shape)
    ensures ShapeFits(g, TryMove(g, st, d).shape)
  {
  }

  /** Safety: a piece that fits the board still fits after an update. */
  lemma UpdateKeepsFit(g: Grid, st: State)
    requires IsMatrix(st.shape.matrix) && ShapeFits(g, st.shape)
    ensures ShapeFits(g, UpdateGame(g, st).shape)
  {
    var s1 := TryMove(g, st, Left);
    TryMoveKeepsFit(g, st, Left);
    var s2 := TryMove(g, s1, Right);
    TryMoveKeepsFit(g, s1, Right);
    var s3 := TryMove(g, s2, Rotate);
    TryMoveKeepsFit(g, s2, Rotate);
    TryMoveKeepsFit(g, s3, Down);
  }

  /** With no move requested an update changes nothing. */
  lemma IdleUpdateChangesNothing(g: Grid, st: State)
    requires IsMatrix(st.shape.matrix)
    requires !st.keys.left && !st.keys.right && !st.keys.up && !st.keys.down
    ensures UpdateGame(g, st) == st
  {
  }

  /** An update moves the piece down at most one row and sideways at most one
      column, and either keeps its matrix or turns it a quarter. */
  lemma UpdateMovesAtMostOneStep(g: Grid, st: State)
    requires IsMatrix(st.shape.matrix)
    ensures var r := UpdateGame(g, st);
            && st.shape.anchor.row <= r.shape.anchor.row <= st.shape.anchor.row + 1
            && st.shape.anchor.col - 1 <= r.shape.anchor.col <= st.shape.anchor.col + 1
            && (r.shape.matrix == st.shape.matrix || r.shape.matrix == RotatedMatrix(st.shape.matrix))
  {
    var s1 := TryMove(g, st, Left);
    var s2 := TryMove(g, s1, Right);
    var s3 := TryMove(g, s2, Rotate);
    assert s2.shape.matrix == st.shape.matrix;
    assert s3.shape.anchor == s2.shape.anchor;
    if s3.shape.matrix != s2.shape.matrix {
      QuarterTurnUnique(s3.shape.matrix, s2.shape.matrix);
    }
  }

  /** A flag the update clears is one whose move it carried out, against the
      state left by the steps before it; a flag it keeps marks a move that
      was not requested or was blocked. */
  lemma UpdateClearsExactlyTheMovesMade(g: Grid, st: State)
    requires IsMatrix(st.shape.matrix)
    ensures var s1 := TryMove(g, st, Left);
            var s2 := TryMove(g, s1, Right);
            var s3 := TryMove(g, s2, Rotate);
            var r := UpdateGame(g, st);
            && (r.keys.left <==> st.keys.left && !Acts(g, st, Left))
            && (r.keys.right <==> st.keys.right && !Acts(g, s1, Right))
            && (r.keys.up <==> st.keys.up && !Acts(g, s2, Rotate))
            && (r.keys.down <==> st.keys.down && !Acts(g, s3, Down))
  {
  }

  /** Left and right requested together on a fitting piece: when the left
      move goes through, the right move is then checked from the new column,
      finds the original place free, and moves back; both flags are cleared
      and the column is unchanged. */
  lemma LeftThenRightReturns(g: Grid, st: State)
    requires IsMatrix(st.shape.matrix) && ShapeFits(g, st.shape)
    requires st.keys.left && st.keys.right && !HasCollision(g, st.shape, Left)
    ensures var r := UpdateGame(g, st);
            && r.shape.anchor.col == st.shape.anchor.col
            && !r.keys.left && !r.keys.right
  {
    var s1 := TryMove(g, st, Left);
    assert Acts(g, st, Left);
    assert s1.shape == Projected(st.shape, Left);
    assert Input.Held(s1.keys, Input.ArrowRight) && !s1.keys.left;
    SideStepsUndo(st.shape);
    assert Projected(s1.shape, Right) == st.shape;
    assert !HasCollision(g, s1.shape, Right);
    var s2 := TryMove(g, s1, Right);
    assert s2.shape == st.shape && !s2.keys.left && !s2.keys.right;
    var s3 := TryMove(g, s2, Rotate);
    assert s3.shape.anchor == s2.shape.anchor;
    assert !s3.keys.left && !s3.keys.right;
  }

  /** The piece the game starts with, at anchor (0, 0). */
  const StartShape: Shape := Shape([[0, 0, 0], [0, 1, 1], [1, 1, 0]], Anchor(0, 0))

  /** Before any key is pressed, an update leaves the starting piece and the
      released key map as they are. */
  lemma StartIsIdle(g: Grid)
    ensures UpdateGame(g, State(StartShape, Input.Released)) == State(StartShape, Input.Released)
  {
    IdleUpdateChangesNothing(g, State(StartShape, Input.Released));
  }

  /** The starting piece turned a quarter clockwise. */
  lemma StartShapeTurned()
    ensures RotatedMatrix(StartShape.matrix) == [[1, 0, 0], [1, 1, 0], [0, 1, 0]]
  {
    var m := StartShape.matrix;
    var r: Matrix := [[1, 0, 0], [1, 1, 0], [0, 1, 0]];
    assert IsMatrix(m);
    forall i, j | 0 <= i < |m| && 0 <= j < |m[0]|
      ensures r[j][|m| - 1 - i] == m[i][j]
    {
      assert i == 0 || i == 1 || i == 2;
      assert j == 0 || j == 1 || j == 2;
    }
    QuarterTurnUnique(r, m);
  }

  /** On the empty board, a matrix whose every cell lands on the board fits. */
  lemma InsideEmptyBoardFits(m: Matrix, a: Anchor)
    requires 0 <= a.row && a.row + |m| <= ROWS
    requires forall r :: 0 <= r < |m| ==> 0 <= a.col && a.col + |m[r]| <= COLS
    ensures Fits(EmptyGrid(), m, a)
  {
    var g := EmptyGrid();
    forall r, c | 0 <= r < |m| && 0 <= c < |m[r]| && m[r][c] != 0
      ensures IsFree(g, a.row + r, a.col + c)
    {
      assert g[a.row + r][a.col + c] == 0;
    }
  }

  /** The starting piece cannot move left from column 0: its bottom-left
      cell would reach column -1, which reads as absent. */
  lemma StartBlockedOnTheLeft()
    ensures HasCollision(EmptyGrid(), StartShape, Left)
  {
    var m := StartShape.matrix;
    assert m[2][0] != 0 && !IsFree(EmptyGrid(), 0 + 2, -1 + 0);
  }

  /** One step of a held move that does not collide on the empty board. */
  lemma StepOnEmptyBoard(st: State, d: Direction, next: Shape)
    requires IsMatrix(st.shape.matrix) && Input.Held(st.keys, KeyFor(d))
    requires next == Projected(st.shape, d)
    requires 0 <= next.anchor.row && next.anchor.row + |next.matrix| <= ROWS
    requires forall r :: 0 <= r < |next.matrix| ==> 0 <= next.anchor.col && next.anchor.col + |next.matrix[r]| <= COLS
    ensures TryMove(EmptyGrid(), st, d) == State(next, Input.WithFlag(st.keys, KeyFor(d), false))
  {
    InsideEmptyBoardFits(next.matrix, next.anchor);
    Input.SameFlagsSameMap(TryMove(EmptyGrid(), st, d).keys, Input.WithFlag(st.keys, KeyFor(d), false));
  }

  /** The piece as it stands after each step of the first update below. */
  const Turned: Matrix := [[1, 0, 0], [1, 1, 0], [0, 1, 0]]
  const AllArrows: State := State(StartShape, Input.KeyMap(true, true, true, true, false))
  const AfterRight: State := State(Shape(StartShape.matrix, Anchor(0, 1)), Input.KeyMap(true, true, true, false, false))
  const AfterTurn: State := State(Shape(Turned, Anchor(0, 1)), Input.KeyMap(false, true, true, false, false))
  const AfterDown: State := State(Shape(Turned, Anchor(1, 1)), Input.KeyMap(false, false, true, false, false))

  /** First step: left is blocked at the wall, nothing changes. */
  lemma FirstLeftStep()
    ensures TryMove(EmptyGrid(), AllArrows, Left) == AllArrows
  {
    StartBlockedOnTheLeft();
  }

  /** Second step: right goes through from the unchanged piece. */
  lemma FirstRightStep()
    ensures TryMove(EmptyGrid(), AllArrows, Right) == AfterRight
  {
    StepOnEmptyBoard(AllArrows, Right, Shape(StartShape.matrix, Anchor(0, 1)));
  }

  /** Third step: the turn goes through at the new column. */
  lemma FirstTurnStep()
    ensures TryMove(EmptyGrid(), AfterRight, Rotate) == AfterTurn
  {
    StartShapeTurned();
    StepOnEmptyBoard(AfterRight, Rotate, Shape(Turned, Anchor(0, 1)));
  }

  /** Fourth step: the turned piece moves down one row. */
  lemma FirstDownStep()
    ensures TryMove(EmptyGrid(), AfterTurn, Down) == AfterDown
  {
    StepOnEmptyBoard(AfterTurn, Down, Shape(Turned, Anchor(1, 1)));
  }

  /** Every arrow held down on the empty board with the starting piece: the
      left move is blocked by the wall and keeps its flag; right, rotate and
      down are each checked from where the previous step left the piece, all
      go through, and their flags are cleared. */
  lemma FirstUpdateFromStart()
    ensures UpdateGame(EmptyGrid(), State(StartShape, Input.KeyMap(true, true, true, true, false)))
         == State(Shape([[1, 0, 0], [1, 1, 0], [0, 1, 0]], Anchor(1, 1)),
                  Input.KeyMap(false, false, true, false, false))
  {
    FirstLeftStep();
    FirstRightStep();
    FirstTurnStep();
    FirstDownStep();
  }
}
