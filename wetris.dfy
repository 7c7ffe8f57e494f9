/** The falling-block game of wetris/bin/wetris.rs: pieces, their rotation,
    the 4x4 shape table, the collision test `hit`, and the steps of the game
    loop that accept a requested move, let the piece fall and lock it into
    the 10x20 grid. Positions are `(column, row)` pairs of the piece's 4x4
    box; rows grow downwards. */
module Wetris {
  import opened Wrappers

  datatype Direction = Up | Down | Left | Right

  /** `Direction::rotate_right`: a quarter turn clockwise. */
  function RotateDirection(d: Direction): (r: Direction)
    ensures r != d
  {
    match d
    case Up => Right
    case Down => Left
    case Left => Up
    case Right => Down
  }

  /** Four quarter turns are the identity, two are not. */
  lemma RotateFour(d: Direction)
    ensures RotateDirection(RotateDirection(RotateDirection(RotateDirection(d)))) == d
    ensures RotateDirection(RotateDirection(d)) != d
  {
  }

  /** A piece kind with the way it faces. */
  datatype Tetrimino =
    | Straight(dir: Direction)
    | Square(dir: Direction)
    | T(dir: Direction)
    | L(dir: Direction)
    | S(dir: Direction)
    | Z(dir: Direction)

  /** `Tetrimino::rotate_right`: the same kind, facing a quarter turn further. */
  function RotateRight(t: Tetrimino): (r: Tetrimino)
    ensures r == t.(dir := RotateDirection(t.dir))
  {
    match t
    case Straight(d) => Straight(RotateDirection(d))
    case Square(d) => Square(RotateDirection(d))
    case T(d) => T(RotateDirection(d))
    case L(d) => L(RotateDirection(d))
    case S(d) => S(RotateDirection(d))
    case Z(d) => Z(RotateDirection(d))
  }

  /** Rotating a piece four times gives it back; rotating it once never does. */
  lemma RotateRightFour(t: Tetrimino)
    ensures RotateRight(RotateRight(RotateRight(RotateRight(t)))) == t
    ensures RotateRight(t) != t
  {
    RotateFour(t.dir);
  }

  /** A 4x4 grid of cells, indexed `[row][column]`. */
  type Shape = seq<seq<nat>>

  predicate IsShape(s: Shape) {
    |s| == 4 && forall r :: 0 <= r < 4 ==> |s[r]| == 4
  }

  type Pos = (int, int)

  /** `Tetrimino::hit`: the shape's cell at board cell (x, y) when the box
      sits at `pos`, or `None` when (x, y) is outside the box or the cell is
      empty. */
  function Hit(x: int, y: int, pos: Pos, shape: Shape): (r: Option<nat>)
    requires IsShape(shape)
    ensures r.Some? <==> (pos.0 <= x < pos.0 + 4 && pos.1 <= y < pos.1 + 4 && shape[y - pos.1][x - pos.0] != 0)
    ensures r.Some? ==> r.value != 0 && r.value == shape[y - pos.1][x - pos.0]
  {
    if x >= pos.0 && x < pos.0 + 4 && y >= pos.1 && y < pos.1 + 4 then
      var cx := x - pos.0;
      var cy := y - pos.1;
      if shape[cy][cx] != 0 then Some(shape[cy][cx]) else None
    else None
  }

  /** `Hit` outside the box is always `None`. */
  lemma HitOutsideBox(x: int, y: int, pos: Pos, shape: Shape)
    requires IsShape(shape)
    requires !(pos.0 <= x < pos.0 + 4 && pos.1 <= y < pos.1 + 4)
    ensures Hit(x, y, pos, shape).None?
  {
  }

  /** `SHAPES`: one 4x4 grid per kind and direction. */
  const SHAPES: seq<(Tetrimino, Shape)> := [
    (Straight(Up),    [[0, 0, 1, 0], [0, 0, 1, 0], [0, 0, 1, 0], [0, 0, 1, 0]]),
    (Straight(Right), [[0, 0, 0, 0], [1, 1, 1, 1], [0, 0, 0, 0], [0, 0, 0, 0]]),
    (Straight(Down),  [[0, 0, 1, 0], [0, 0, 1, 0], [0, 0, 1, 0], [0, 0, 1, 0]]),
    (Straight(Left),  [[0, 0, 0, 0], [1, 1, 1, 1], [0, 0, 0, 0], [0, 0, 0, 0]]),
    (Square(Up),      [[0, 0, 0, 0], [0, 1, 1, 0], [0, 1, 1, 0], [0, 0, 0, 0]]),
    (Square(Right),   [[0, 0, 0, 0], [0, 1, 1, 0], [0, 1, 1, 0], [0, 0, 0, 0]]),
    (Square(Down),    [[0, 0, 0, 0], [0, 1, 1, 0], [0, 1, 1, 0], [0, 0, 0, 0]]),
    (Square(Left),    [[0, 0, 0, 0], [0, 1, 1, 0], [0, 1, 1, 0], [0, 0, 0, 0]]),
    (T(Up),           [[0, 0, 0, 0], [1, 1, 1, 0], [0, 1, 0, 0], [0, 0, 0, 0]]),
    (T(Right),        [[0, 1, 0, 0], [1, 1, 0, 0], [0, 1, 0, 0], [0, 0, 0, 0]]),
    (T(Down),         [[0, 1, 0, 0], [1, 1, 1, 0], [0, 0, 0, 0], [0, 0, 0, 0]]),
    (T(Left),         [[0, 1, 0, 0], [0, 1, 1, 0], [0, 1, 0, 0], [0, 0, 0, 0]]),
    (L(Up),           [[0, 0, 0, 0], [1, 1, 1, 0], [1, 0, 0, 0], [0, 0, 0, 0]]),
    (L(Right),        [[1, 1, 0, 0], [0, 1, 0, 0], [0, 1, 0, 0], [0, 0, 0, 0]]),
    (L(Down),         [[0, 0, 0, 0], [0, 0, 1, 0], [1, 1, 1, 0], [0, 0, 0, 0]]),
    (L(Left),         [[0, 1, 0, 0], [0, 1, 0, 0], [0, 1, 1, 0], [0, 0, 0, 0]]),
    (S(Up),           [[0, 0, 0, 0], [0, 1, 1, 0], [1, 1, 0, 0], [0, 0, 0, 0]]),
    (S(Right),        [[1, 0, 0, 0], [1, 1, 0, 0], [0, 1, 0, 0], [0, 0, 0, 0]]),
    (S(Down),         [[0, 0, 0, 0], [0, 1, 1, 0], [1, 1, 0, 0], [0, 0, 0, 0]]),
    (S(Left),         [[1, 0, 0, 0], [1, 1, 0, 0], [0, 1, 0, 0], [0, 0, 0, 0]]),
    (Z(Up),           [[0, 0, 0, 0], [1, 1, 0, 0], [0, 1, 1, 0], [0, 0, 0, 0]]),
    (Z(Right),        [[0, 0, 1, 0], [0, 1, 1, 0], [0, 1, 0, 0], [0, 0, 0, 0]]),
    (Z(Down),         [[0, 0, 0, 0], [1, 1, 0, 0], [0, 1, 1, 0], [0, 0, 0, 0]]),
    (Z(Left),         [[0, 0, 1, 0], [0, 1, 1, 0], [0, 1, 0, 0], [0, 0, 0, 0]])
  ]

  /** The table's position of a piece: kinds in table order, four directions
      each, in the order Up, Right, Down, Left. */
  function TableIndex(t: Tetrimino): (i: nat)
    ensures i < 24
  {
    var k := match t
      case Straight(_) => 0
      case Square(_) => 1
      case T(_) => 2
      case L(_) => 3
      case S(_) => 4
      case Z(_) => 5;
    var d := match t.dir
      case Up => 0
      case Right => 1
      case Down => 2
      case Left => 3;
    4 * k + d
  }

  /** Each table entry sits at its piece's index, so every piece has exactly
      one entry. */
  lemma ShapesIndexed()
    ensures |SHAPES| == 24
    ensures forall i :: 0 <= i < 24 ==> TableIndex(SHAPES[i].0) == i
  {
  }

  /** The table's entries for piece t: the value of the last one, as
      `HashMap::from_iter` keeps it. */
  function Find(table: seq<(Tetrimino, Shape)>, t: Tetrimino): (r: Option<Shape>)
    ensures r.Some? <==> exists i :: 0 <= i < |table| && table[i].0 == t
    decreases |table|
  {
    if table == [] then None
    else if table[|table| - 1].0 == t then Some(table[|table| - 1].1)
    else
      var r := Find(table[..|table| - 1], t);
      assert forall i :: 0 <= i < |table| - 1 ==> table[..|table| - 1][i] == table[i];
      r
  }

  /** In a table without repeated pieces, the lookup gives the entry's grid. */
  lemma {:induction false} FindEntry(table: seq<(Tetrimino, Shape)>, i: nat)
    requires i < |table|
    requires forall j, k :: 0 <= j < k < |table| ==> table[j].0 != table[k].0
    ensures Find(table, table[i].0) == Some(table[i].1)
    decreases |table|
  {
    if i < |table| - 1 {
      FindEntry(table[..|table| - 1], i);
    }
  }

  /** `shapes[&t]`: the grid of a piece. The lookup never misses, since every
      piece has an entry. */
  function ShapeOf(t: Tetrimino): (s: Shape)
    ensures s == SHAPES[TableIndex(t)].1
  {
    ShapesIndexed();
    assert SHAPES[TableIndex(t)].0 == t;
    FindEntry(SHAPES, TableIndex(t));
    Find(SHAPES, t).value
  }

  /** The number of cells equal to 1 in a row of four. */
  function RowOnes(row: seq<nat>): nat
    requires |row| == 4
  {
    (if row[0] == 1 then 1 else 0) + (if row[1] == 1 then 1 else 0)
    + (if row[2] == 1 then 1 else 0) + (if row[3] == 1 then 1 else 0)
  }

  /** The number of cells equal to 1 in a shape. */
  function Ones(s: Shape): nat
    requires IsShape(s)
  {
    RowOnes(s[0]) + RowOnes(s[1]) + RowOnes(s[2]) + RowOnes(s[3])
  }

  /** Every cell of a shape is 0 or 1. */
  predicate Binary(s: Shape)
    requires IsShape(s)
  {
    BinaryRow(s[0]) && BinaryRow(s[1]) && BinaryRow(s[2]) && BinaryRow(s[3])
  }

  predicate BinaryRow(row: seq<nat>)
    requires |row| == 4
  {
    row[0] <= 1 && row[1] <= 1 && row[2] <= 1 && row[3] <= 1
  }

  /** A 0/1 shape has no cell above 1. */
  lemma BinaryCells(s: Shape)
    requires IsShape(s) && Binary(s)
    ensures forall r, c :: 0 <= r < 4 && 0 <= c < 4 ==> s[r][c] <= 1
  {
  }

  /** A 4x4 grid of 0s and 1s with exactly four 1s: four blocks. */
  predicate Tetrimino4(s: Shape) {
    IsShape(s) && Binary(s) && Ones(s) == 4
  }

  /** Every piece's grid is four blocks. */
  lemma ShapesAreTetriminos(t: Tetrimino)
    ensures Tetrimino4(ShapeOf(t))
  {
    match t
    case Straight(d) => StraightFour(d);
    case Square(d) => SquareFour(d);
    case T(d) => TFour(d);
    case L(d) => LFour(d);
    case S(d) => SFour(d);
    case Z(d) => ZFour(d);
  }

  /** The four grids of the Straight piece are four blocks each. */
  lemma StraightFour(d: Direction)
    ensures Tetrimino4(ShapeOf(Straight(d)))
  {
    match d
    case Up => assert Tetrimino4(SHAPES[0].1);
    case Right => assert Tetrimino4(SHAPES[1].1);
    case Down => assert Tetrimino4(SHAPES[2].1);
    case Left => assert Tetrimino4(SHAPES[3].1);
  }

  /** The four grids of the Square piece are four blocks each. */
  lemma SquareFour(d: Direction)
    ensures Tetrimino4(ShapeOf(Square(d)))
  {
    match d
    case Up => assert Tetrimino4(SHAPES[4].1);
    case Right => assert Tetrimino4(SHAPES[5].1);
    case Down => assert Tetrimino4(SHAPES[6].1);
    case Left => assert Tetrimino4(SHAPES[7].1);
  }

  /** The four grids of the T piece are four blocks each. */
  lemma TFour(d: Direction)
    ensures Tetrimino4(ShapeOf(T(d)))
  {
    match d
    case Up => assert Tetrimino4(SHAPES[8].1);
    case Right => assert Tetrimino4(SHAPES[9].1);
    case Down => assert Tetrimino4(SHAPES[10].1);
    case Left => assert Tetrimino4(SHAPES[11].1);
  }

  /** The four grids of the L piece are four blocks each. */
  lemma LFour(d: Direction)
    ensures Tetrimino4(ShapeOf(L(d)))
  {
    match d
    case Up => assert Tetrimino4(SHAPES[12].1);
    case Right => assert Tetrimino4(SHAPES[13].1);
    case Down => assert Tetrimino4(SHAPES[14].1);
    case Left => assert Tetrimino4(SHAPES[15].1);
  }

  /** The four grids of the S piece are four blocks each. */
  lemma SFour(d: Direction)
    ensures Tetrimino4(ShapeOf(S(d)))
  {
    match d
    case Up => assert Tetrimino4(SHAPES[16].1);
    case Right => assert Tetrimino4(SHAPES[17].1);
    case Down => assert Tetrimino4(SHAPES[18].1);
    case Left => assert Tetrimino4(SHAPES[19].1);
  }

  /** The four grids of the Z piece are four blocks each. */
  lemma ZFour(d: Direction)
    ensures Tetrimino4(ShapeOf(Z(d)))
  {
    match d
    case Up => assert Tetrimino4(SHAPES[20].1);
    case Right => assert Tetrimino4(SHAPES[21].1);
    case Down => assert Tetrimino4(SHAPES[22].1);
    case Left => assert Tetrimino4(SHAPES[23].1);
  }

  /** The square looks the same every way it faces, as the comment beside
      the kind says. */
  lemma SquareSymmetric(d: Direction)
    ensures ShapeOf(Square(d)) == ShapeOf(Square(RotateDirection(d)))
  {
    assert SHAPES[4].1 == SHAPES[5].1 == SHAPES[6].1 == SHAPES[7].1;
  }

  /** The straight piece, the S and the Z look the same after a half turn,
      as the comments beside the kinds say. */
  lemma HalfTurnSymmetric(d: Direction)
    ensures ShapeOf(Straight(d)) == ShapeOf(Straight(RotateDirection(RotateDirection(d))))
    ensures ShapeOf(S(d)) == ShapeOf(S(RotateDirection(RotateDirection(d))))
    ensures ShapeOf(Z(d)) == ShapeOf(Z(RotateDirection(RotateDirection(d))))
  {
    assert SHAPES[0].1 == SHAPES[2].1 && SHAPES[1].1 == SHAPES[3].1;
    assert SHAPES[16].1 == SHAPES[18].1 && SHAPES[17].1 == SHAPES[19].1;
    assert SHAPES[20].1 == SHAPES[22].1 && SHAPES[21].1 == SHAPES[23].1;
  }

  /** `GRID_SIZE`: ten columns and twenty rows. */
  const Width := 10
  const Height := 20

  /** The board as rows of cells; 0 is empty. */
  predicate IsGrid(g: seq<seq<nat>>) {
    |g| == Height && forall y :: 0 <= y < Height ==> |g[y]| == Width
  }

  /** `get_starting_position`. */
  const Start: Pos := (3, 0)

  function Max(a: int, b: int): int { if a < b then b else a }
  function Min(a: int, b: int): int { if a < b then a else b }
  function Abs(a: int): int { if a < 0 then -a else a }

  /** The rows and columns the scans visit for a box at w: the part of the
      box that lies on the board. */
  predicate RowIn(w: Pos, y: int) { Max(w.1, 0) <= y < Min(w.1 + 4, Height) }
  predicate ColIn(w: Pos, x: int) { Max(w.0, 0) <= x < Min(w.0 + 4, Width) }

  /** Some filled board cell in the window at w is also a cell of the shape
      placed at p. */
  ghost predicate HitIn(g: seq<seq<nat>>, w: Pos, p: Pos, s: Shape)
    requires IsGrid(g) && IsShape(s)
  {
    exists y, x :: RowIn(w, y) && ColIn(w, x) && g[y][x] != 0 && Hit(x, y, p, s).Some?
  }

  /** The shape placed at p has a cell on the line just below the board,
      in a column of the window at w. */
  ghost predicate BottomIn(w: Pos, p: Pos, s: Shape)
    requires IsShape(s)
  {
    exists x :: ColIn(w, x) && Hit(x, Height, p, s).Some?
  }

  /** The shape placed at p has a cell on the column just left or just
      right of the board, in a row of the window at w, or below the board. */
  ghost predicate OutIn(w: Pos, p: Pos, s: Shape)
    requires IsShape(s)
  {
    (exists y :: RowIn(w, y) && (Hit(-1, y, p, s).Some? || Hit(Width, y, p, s).Some?))
    || BottomIn(w, p, s)
  }

  /** No filled board cell lies under a cell of the shape placed at p. */
  ghost predicate NoOverlap(g: seq<seq<nat>>, p: Pos, s: Shape)
    requires IsGrid(g) && IsShape(s)
  {
    forall y, x :: 0 <= y < Height && 0 <= x < Width && Hit(x, y, p, s).Some? ==> g[y][x] == 0
  }

  /** The window at the piece's own position holds every board cell the
      piece covers, so scanning it finds an overlap exactly when there is one. */
  lemma WindowFindsOverlap(g: seq<seq<nat>>, p: Pos, s: Shape)
    requires IsGrid(g) && IsShape(s)
    ensures HitIn(g, p, p, s) <==> !NoOverlap(g, p, s)
  {
    if !NoOverlap(g, p, s) {
      var y, x :| 0 <= y < Height && 0 <= x < Width && Hit(x, y, p, s).Some? && g[y][x] != 0;
      assert RowIn(p, y) && ColIn(p, x);
    }
  }

  /** The keys the game reads. */
  datatype Key = KeyUp | KeyDown | KeyLeft | KeyRight | OtherKey

  /** The request a key makes: Up asks for a rotation, Left, Right and Down
      for a step to that side; other keys ask for nothing. */
  function Request(key: Key, t: Tetrimino, p: Pos): (r: (Option<Tetrimino>, Option<Pos>))
    ensures r.0.Some? ==> key == KeyUp && r.0.value == RotateRight(t) && r.1.None?
    ensures r.1.Some? ==> r.0.None? && r.1.value.1 >= p.1 && Abs(r.1.value.0 - p.0) + (r.1.value.1 - p.1) == 1
    ensures key == OtherKey <==> (r.0.None? && r.1.None?)
  {
    match key
    case KeyUp => (Some(RotateRight(t)), None)
    case KeyRight => (None, Some((p.0 + 1, p.1)))
    case KeyLeft => (None, Some((p.0 - 1, p.1)))
    case KeyDown => (None, Some((p.0, p.1 + 1)))
    case OtherKey => (None, None)
  }

  /** The piece and position a request asks for; what is not requested stays. */
  function Candidate(t: Tetrimino, p: Pos, newMino: Option<Tetrimino>, newPos: Option<Pos>): (Tetrimino, Pos) {
    (if newMino.Some? then newMino.value else t, if newPos.Some? then newPos.value else p)
  }

  /** The request as the game loop decides it: the overlap and wall scans
      visit the window at the piece's CURRENT position, not at the requested
      one. */
  ghost function MovedAsWritten(g: seq<seq<nat>>, t: Tetrimino, p: Pos,
                          newMino: Option<Tetrimino>, newPos: Option<Pos>): (Tetrimino, Pos)
    requires IsGrid(g)
  {
    var c := Candidate(t, p, newMino, newPos);
    var s := ShapeOf(c.0);
    ShapesAreTetriminos(c.0);
    if newMino.None? && newPos.None? then (t, p)
    else if HitIn(g, p, c.1, s) || OutIn(p, c.1, s) then (t, p)
    else c
  }

  /** Scanned as written, a step right can move a piece onto a filled cell:
      a flat straight piece at (0, 0) covers columns 0 to 3 of row 1; the
      window the scan visits is columns 0 to 3, so the filled cell at column
      4 of row 1 is never looked at, and the step is accepted. */
  lemma AsWrittenMovesIntoBlock()
    ensures var g := seq(Height, y => seq(Width, x => if y == 1 && x == 4 then 1 else 0));
      IsGrid(g)
      && MovedAsWritten(g, Straight(Right), (0, 0), None, Some((1, 0))) == (Straight(Right), (1, 0))
      && !NoOverlap(g, (1, 0), ShapeOf(Straight(Right)))
  {
    var g := seq(Height, y => seq(Width, x => if y == 1 && x == 4 then 1 else 0));
    var s := ShapeOf(Straight(Right));
    assert s == [[0, 0, 0, 0], [1, 1, 1, 1], [0, 0, 0, 0], [0, 0, 0, 0]];
    assert !HitIn(g, (0, 0), (1, 0), s) by {
      forall y, x | RowIn((0, 0), y) && ColIn((0, 0), x)
        ensures g[y][x] == 0
      {
      }
    }
    assert !OutIn((0, 0), (1, 0), s) by {
      forall y | RowIn((0, 0), y)
        ensures Hit(-1, y, (1, 0), s).None? && Hit(Width, y, (1, 0), s).None?
      {
        HitOutsideBox(-1, y, (1, 0), s);
        HitOutsideBox(Width, y, (1, 0), s);
      }
      forall x | ColIn((0, 0), x)
        ensures Hit(x, Height, (1, 0), s).None?
      {
        HitOutsideBox(x, Height, (1, 0), s);
      }
    }
    assert Hit(4, 1, (1, 0), s).Some? && g[1][4] != 0;
  }

  /** The request as intended: the scans visit the window at the requested
      position. */
  ghost function Moved(g: seq<seq<nat>>, t: Tetrimino, p: Pos,
                 newMino: Option<Tetrimino>, newPos: Option<Pos>): (Tetrimino, Pos)
    requires IsGrid(g)
  {
    var c := Candidate(t, p, newMino, newPos);
    var s := ShapeOf(c.0);
    ShapesAreTetriminos(c.0);
    if newMino.None? && newPos.None? then (t, p)
    else if HitIn(g, c.1, c.1, s) || OutIn(c.1, c.1, s) then (t, p)
    else c
  }

  /** A request is granted exactly when the requested piece at the requested
      position covers no filled cell and no cell just outside the side walls
      or the floor; otherwise nothing changes. */
  lemma MovedGranted(g: seq<seq<nat>>, t: Tetrimino, p: Pos, newMino: Option<Tetrimino>, newPos: Option<Pos>)
    requires IsGrid(g)
    requires newMino.Some? || newPos.Some?
    ensures var c := Candidate(t, p, newMino, newPos);
      var s := ShapeOf(c.0);
      IsShape(s)
      && (Moved(g, t, p, newMino, newPos) == c <== (NoOverlap(g, c.1, s) && !OutIn(c.1, c.1, s)))
      && (!(NoOverlap(g, c.1, s) && !OutIn(c.1, c.1, s)) ==> Moved(g, t, p, newMino, newPos) == (t, p))
  {
    var c := Candidate(t, p, newMino, newPos);
    ShapesAreTetriminos(c.0);
    WindowFindsOverlap(g, c.1, ShapeOf(c.0));
  }

  /** A rotation in place scans the right window even as written: the bug
      only affects steps. */
  lemma RotationAsWrittenAgrees(g: seq<seq<nat>>, t: Tetrimino, p: Pos, newMino: Option<Tetrimino>)
    requires IsGrid(g)
    ensures MovedAsWritten(g, t, p, newMino, None) == Moved(g, t, p, newMino, None)
  {
  }

  /** The gravity candidate: one row down on every fifth tick, else the
      position itself. */
  function Gravity(p: Pos, tick: nat): (r: Pos)
    ensures r.0 == p.0
    ensures r.1 == p.1 + 1 <==> tick % 5 == 0
    ensures r.1 == p.1 <==> tick % 5 != 0
  {
    if tick % 5 == 0 then (p.0, p.1 + 1) else p
  }

  /** Every filled cell of the shape placed at p lies on the board. */
  predicate Fits(p: Pos, s: Shape)
    requires IsShape(s)
  {
    forall r, c :: 0 <= r < 4 && 0 <= c < 4 && s[r][c] != 0 ==> 0 <= p.1 + r < Height && 0 <= p.0 + c < Width
  }

  /** The board after the shape placed at p was written into it. */
  function Locked(g: seq<seq<nat>>, p: Pos, s: Shape): (r: seq<seq<nat>>)
    requires IsGrid(g) && IsShape(s)
    ensures IsGrid(r)
  {
    seq(Height, y requires 0 <= y < Height =>
      seq(Width, x requires 0 <= x < Width =>
        if Hit(x, y, p, s).Some? then Hit(x, y, p, s).value else g[y][x]))
  }

  /** The filled cells of a board, as (column, row) pairs. */
  function Filled(g: seq<seq<nat>>): set<Pos>
    requires IsGrid(g)
  {
    set y, x | 0 <= y < Height && 0 <= x < Width && g[y][x] != 0 :: (x, y)
  }

  /** The board cells of the shape placed at p. */
  function PieceCells(p: Pos, s: Shape): set<Pos>
    requires IsShape(s)
  {
    set r, c | 0 <= r < 4 && 0 <= c < 4 && s[r][c] != 0 :: (p.0 + c, p.1 + r)
  }

  /** Locking a piece that fits fills exactly its own cells besides those
      already filled, and changes no cell outside the piece. */
  lemma LockedFills(g: seq<seq<nat>>, p: Pos, s: Shape)
    requires IsGrid(g) && IsShape(s) && Fits(p, s)
    ensures Filled(Locked(g, p, s)) == Filled(g) + PieceCells(p, s)
    ensures forall y, x :: 0 <= y < Height && 0 <= x < Width && (x, y) !in PieceCells(p, s) ==> Locked(g, p, s)[y][x] == g[y][x]
  {
    var l := Locked(g, p, s);
    forall q | q in PieceCells(p, s)
      ensures q in Filled(l)
    {
      var r, c :| 0 <= r < 4 && 0 <= c < 4 && s[r][c] != 0 && q == (p.0 + c, p.1 + r);
      assert l[p.1 + r][p.0 + c] != 0;
    }
    forall q | q in Filled(l)
      ensures q in Filled(g) + PieceCells(p, s)
    {
      var y, x :| 0 <= y < Height && 0 <= x < Width && l[y][x] != 0 && q == (x, y);
      HitInPiece(x, y, p, s);
    }
    forall y, x | 0 <= y < Height && 0 <= x < Width && (x, y) !in PieceCells(p, s)
      ensures l[y][x] == g[y][x]
    {
      HitInPiece(x, y, p, s);
    }
  }

  /** A cell the shape covers is one of the piece's cells. */
  lemma HitInPiece(x: int, y: int, p: Pos, s: Shape)
    requires IsShape(s)
    ensures Hit(x, y, p, s).Some? ==> (x, y) in PieceCells(p, s)
  {
    if Hit(x, y, p, s).Some? {
      assert (x, y) == (p.0 + (x - p.0), p.1 + (y - p.1));
    }
  }

  /** The board held by a 20x10 array. */
  function Contents(grid: array2<nat>): (g: seq<seq<nat>>)
    requires grid.Length0 == Height && grid.Length1 == Width
    reads grid
    ensures IsGrid(g)
    ensures forall y, x :: 0 <= y < Height && 0 <= x < Width ==> g[y][x] == grid[y, x]
  {
    seq(Height, y requires 0 <= y < Height reads grid =>
      seq(Width, x requires 0 <= x < Width reads grid => grid[y, x]))
  }

  /** Two boards agreeing on every cell are equal. */
  lemma SameBoard(g: seq<seq<nat>>, h: seq<seq<nat>>)
    requires IsGrid(g) && IsGrid(h)
    requires forall y, x :: 0 <= y < Height && 0 <= x < Width ==> g[y][x] == h[y][x]
    ensures g == h
  {
    forall y | 0 <= y < Height
      ensures g[y] == h[y]
    {
    }
  }

  /** The overlap scan of the game loop: rows, then columns, of the window
      at w, stopping at the first filled cell the shape at p also covers. */
  method ScanHit(grid: array2<nat>, w: Pos, p: Pos, s: Shape) returns (hit: bool)
    requires grid.Length0 == Height && grid.Length1 == Width && IsShape(s)
    ensures hit == HitIn(Contents(grid), w, p, s)
  {
    ghost var g := Contents(grid);
    var y := Max(w.1, 0);
    while y < Min(w.1 + 4, Height)
      invariant Max(w.1, 0) <= y
      invariant forall y', x :: RowIn(w, y') && y' < y && ColIn(w, x) ==> !(g[y'][x] != 0 && Hit(x, y', p, s).Some?)
    {
      var x := Max(w.0, 0);
      while x < Min(w.0 + 4, Width)
        invariant Max(w.0, 0) <= x
        invariant forall x' :: ColIn(w, x') && x' < x ==> !(g[y][x'] != 0 && Hit(x', y, p, s).Some?)
      {
        if grid[y, x] != 0 && Hit(x, y, p, s).Some? {
          assert RowIn(w, y) && ColIn(w, x) && g[y][x] != 0;
          return true;
        }
        x := x + 1;
      }
      y := y + 1;
    }
    return false;
  }

  /** The wall scans of the game loop: the columns just left and right of
      the board on the window's rows, then the line below the board on its
      columns. */
  method ScanOut(w: Pos, p: Pos, s: Shape) returns (out: bool)
    requires IsShape(s)
    ensures out == OutIn(w, p, s)
  {
    var y := Max(w.1, 0);
    while y < Min(w.1 + 4, Height)
      invariant Max(w.1, 0) <= y
      invariant forall y' :: RowIn(w, y') && y' < y ==> !(Hit(-1, y', p, s).Some? || Hit(Width, y', p, s).Some?)
    {
      if Hit(-1, y, p, s).Some? || Hit(Width, y, p, s).Some? {
        assert RowIn(w, y);
        return true;
      }
      y := y + 1;
    }
    var x := Max(w.0, 0);
    while x < Min(w.0 + 4, Width)
      invariant Max(w.0, 0) <= x
      invariant forall x' :: ColIn(w, x') && x' < x ==> Hit(x', Height, p, s).None?
    {
      if Hit(x, Height, p, s).Some? {
        assert ColIn(w, x);
        return true;
      }
      x := x + 1;
    }
    return false;
  }

  /** The fall scan of the game loop: column by column of the window at p,
      a filled cell the piece covers, then the line below the board. */
  method ScanFall(grid: array2<nat>, p: Pos, s: Shape) returns (blocked: bool)
    requires grid.Length0 == Height && grid.Length1 == Width && IsShape(s)
    ensures blocked == (HitIn(Contents(grid), p, p, s) || BottomIn(p, p, s))
  {
    ghost var g := Contents(grid);
    var x := Max(p.0, 0);
    while x < Min(p.0 + 4, Width)
      invariant Max(p.0, 0) <= x
      invariant forall y, x' :: RowIn(p, y) && ColIn(p, x') && x' < x ==> !(g[y][x'] != 0 && Hit(x', y, p, s).Some?)
      invariant forall x' :: ColIn(p, x') && x' < x ==> Hit(x', Height, p, s).None?
    {
      var y := Max(p.1, 0);
      while y < Min(p.1 + 4, Height)
        invariant Max(p.1, 0) <= y
        invariant forall y' :: RowIn(p, y') && y' < y ==> !(g[y'][x] != 0 && Hit(x, y', p, s).Some?)
      {
        if grid[y, x] != 0 && Hit(x, y, p, s).Some? {
          assert RowIn(p, y) && ColIn(p, x) && g[y][x] != 0;
          return true;
        }
        y := y + 1;
      }
      if Hit(x, Height, p, s).Some? {
        assert ColIn(p, x);
        return true;
      }
      x := x + 1;
    }
    return false;
  }

  /** Shape cell (r, c) comes before cell (y, x) in row-major order. */
  predicate Before(r: int, c: int, y: int, x: int) {
    0 <= r < 4 && 0 <= c < 4 && (r < y || (r == y && c < x))
  }

  /** The "add to grid" loop: writes every filled cell of the shape placed
      at p into the board, row by row. `ok` is false where the source
      panics: a filled cell that falls outside the board. */
  method Lock(grid: array2<nat>, p: Pos, s: Shape) returns (ok: bool)
    requires grid.Length0 == Height && grid.Length1 == Width && IsShape(s)
    modifies grid
    ensures ok <==> Fits(p, s)
    ensures ok ==> Contents(grid) == Locked(old(Contents(grid)), p, s)
  {
    ghost var g := Contents(grid);
    var y := 0;
    while y < 4
      invariant 0 <= y <= 4
      invariant forall r, c :: Before(r, c, y, 0) && s[r][c] != 0 ==> 0 <= p.1 + r < Height && 0 <= p.0 + c < Width
      invariant forall r, c :: 0 <= r < Height && 0 <= c < Width ==>
        grid[r, c] == (if Hit(c, r, p, s).Some? && Before(r - p.1, c - p.0, y, 0) then s[r - p.1][c - p.0] else g[r][c])
    {
      ok := LockRow(grid, p, s, y, g);
      if !ok {
        return false;
      }
      y := y + 1;
    }
    SameBoard(Contents(grid), Locked(g, p, s));
    return true;
  }

  /** The inner loop of `Lock`, over row y of the shape: the rows above it
      are written over g, and on success so is row y. */
  method LockRow(grid: array2<nat>, p: Pos, s: Shape, y: int, ghost g: seq<seq<nat>>) returns (ok: bool)
    requires grid.Length0 == Height && grid.Length1 == Width && IsShape(s) && 0 <= y < 4
    requires |g| == Height && forall r :: 0 <= r < Height ==> |g[r]| == Width
    requires forall r, c :: Before(r, c, y, 0) && s[r][c] != 0 ==> 0 <= p.1 + r < Height && 0 <= p.0 + c < Width
    requires forall r, c :: 0 <= r < Height && 0 <= c < Width ==>
      grid[r, c] == (if Hit(c, r, p, s).Some? && Before(r - p.1, c - p.0, y, 0) then s[r - p.1][c - p.0] else g[r][c])
    modifies grid
    ensures !ok ==> !Fits(p, s)
    ensures ok ==> forall r, c :: Before(r, c, y + 1, 0) && s[r][c] != 0 ==> 0 <= p.1 + r < Height && 0 <= p.0 + c < Width
    ensures ok ==> forall r, c :: 0 <= r < Height && 0 <= c < Width ==>
      grid[r, c] == (if Hit(c, r, p, s).Some? && Before(r - p.1, c - p.0, y + 1, 0) then s[r - p.1][c - p.0] else g[r][c])
  {
    var x := 0;
    while x < 4
      invariant 0 <= x <= 4
      invariant forall r, c :: Before(r, c, y, x) && s[r][c] != 0 ==> 0 <= p.1 + r < Height && 0 <= p.0 + c < Width
      invariant forall r, c :: 0 <= r < Height && 0 <= c < Width ==>
        grid[r, c] == (if Hit(c, r, p, s).Some? && Before(r - p.1, c - p.0, y, x) then s[r - p.1][c - p.0] else g[r][c])
    {
      if s[y][x] != 0 {
        if !(0 <= y + p.1 < Height && 0 <= x + p.0 < Width) {
          return false;
        }
        grid[y + p.1, x + p.0] := s[y][x];
      }
      x := x + 1;
    }
    return true;
  }

  /** The board, the falling piece and the tick counter of the game loop.
      The board is the one array the loop writes cell by cell. */
  class Game {
    var tetrimino: Tetrimino
    var position: Pos
    var tick: nat
    const grid: array2<nat>

    /** The board is 20 rows of 10 cells, each empty (0) or filled (1). */
    predicate Valid()
      reads this, grid
    {
      grid.Length0 == Height && grid.Length1 == Width
      && forall y, x :: 0 <= y < Height && 0 <= x < Width ==> grid[y, x] <= 1
    }

    /** The start of `main`: an empty board and the first piece, drawn by
        the caller, at the starting position. */
    constructor(first: Tetrimino)
      ensures Valid() && fresh(grid)
      ensures tetrimino == first && position == Start && tick == 0
      ensures Filled(Contents(grid)) == {}
    {
      tetrimino := first;
      position := Start;
      tick := 0;
      grid := new nat[Height, Width]((y, x) => 0);
    }

    /** The move step of the loop: the requested rotation and position
        replace the current ones when the requested piece at the requested
        place covers no filled cell and does not touch the walls or floor.
        The scans visit the window at the requested place (see
        `MovedAsWritten` for the window the source scans). */
    method Move(newMino: Option<Tetrimino>, newPos: Option<Pos>)
      requires Valid()
      modifies this
      ensures Valid() && tick == old(tick)
      ensures (tetrimino, position) == Moved(Contents(grid), old(tetrimino), old(position), newMino, newPos)
    {
      if newMino.None? && newPos.None? {
        return;
      }
      var c := Candidate(tetrimino, position, newMino, newPos);
      var s := ShapeOf(c.0);
      ShapesAreTetriminos(c.0);
      var hit := ScanHit(grid, c.1, c.1, s);
      var out := ScanOut(c.1, c.1, s);
      if !hit && !out {
        tetrimino, position := c.0, c.1;
      }
    }

    /** The fall step of the loop: the piece moves to its gravity candidate
        unless it would cover a filled cell or reach below the floor; then
        it is locked into the board where it stands and the next piece,
        drawn by the caller, starts at the starting position. `ok` is false
        where the source panics: locking a piece that does not fit. */
    method Fall(next: Tetrimino) returns (ok: bool)
      requires Valid()
      modifies this, grid
      ensures var cand := Gravity(old(position), old(tick));
        var s := ShapeOf(old(tetrimino));
        IsShape(s)
        && (var blocked := HitIn(old(Contents(grid)), cand, cand, s) || BottomIn(cand, cand, s);
            (!blocked ==> ok && position == cand && tetrimino == old(tetrimino) && Contents(grid) == old(Contents(grid)))
            && (blocked ==> ((ok <==> Fits(old(position), s))
                  && (ok ==> (Contents(grid) == Locked(old(Contents(grid)), old(position), s)
                             && tetrimino == next && position == Start)))))
      ensures ok ==> Valid() && tick == old(tick) + 1
    {
      var s := ShapeOf(tetrimino);
      ShapesAreTetriminos(tetrimino);
      var cand := Gravity(position, tick);
      var blocked := ScanFall(grid, cand, s);
      if !blocked {
        position := cand;
      } else {
        ghost var g := Contents(grid);
        ok := Lock(grid, position, s);
        if !ok {
          return;
        }
        LockedBinary(g, position, s);
        tetrimino := next;
        position := Start;
      }
      ok := true;
      tick := tick + 1;
    }
  }

  /** Locking a 0/1 shape into a 0/1 board leaves a 0/1 board. */
  lemma LockedBinary(g: seq<seq<nat>>, p: Pos, s: Shape)
    requires IsGrid(g) && IsShape(s) && Binary(s)
    requires forall y, x :: 0 <= y < Height && 0 <= x < Width ==> g[y][x] <= 1
    ensures forall y, x :: 0 <= y < Height && 0 <= x < Width ==> Locked(g, p, s)[y][x] <= 1
  {
  }
}
