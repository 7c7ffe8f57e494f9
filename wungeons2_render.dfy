/** `bresenham` (wungeons2/src/render.rs:359-392): the grid cells of the line
    from `pos0` to `pos1`, which sight and fog are computed along. */
module Render {
  import opened Components

  function Abs(a: int): nat {
    if a < 0 then -a else a
  }

  function MaxNat(a: nat, b: nat): nat {
    if a < b then b else a
  }

  /** v lies between a and b, inclusive, in either order. */
  predicate Between(a: int, v: int, b: int) {
    (a <= v <= b) || (b <= v <= a)
  }

  /** The coordinate reached from a after i unit steps of sign s. */
  function Toward(a: int, s: int, i: nat): int {
    if s == 1 then a + i else a - i
  }

  /** One step of the line: each coordinate moves by 0 or by one unit in the
      direction of the target, and at least one of them moves. */
  predicate StepToward(p: Position, q: Position, pos0: Position, pos1: Position) {
    var sx := if pos0.x < pos1.x then 1 else -1;
    var sy := if pos0.y < pos1.y then 1 else -1;
    (q.x == p.x || q.x == p.x + sx) && (q.y == p.y || q.y == p.y + sy) && p != q
  }

  /** The k-th cell of the line lies in the box spanned by the endpoints,
      k steps from the start along the longer axis (x when the line is at
      least as wide as it is tall). */
  predicate CellAt(p: Position, k: nat, pos0: Position, pos1: Position) {
    var major := Abs(pos1.x - pos0.x) >= Abs(pos1.y - pos0.y);
    Between(pos0.x, p.x, pos1.x) && Between(pos0.y, p.y, pos1.y)
    && (major ==> p.x == Toward(pos0.x, if pos0.x < pos1.x then 1 else -1, k))
    && (!major ==> p.y == Toward(pos0.y, if pos0.y < pos1.y then 1 else -1, k))
  }

  /** The error term's invariant, with i steps taken along x and j along y:
      the term is determined by i and j, stays within half the longer axis of
      the ideal line, and on a diagonal both axes advance together. */
  predicate ErrorInv(dx: int, dy: int, i: int, j: int, err: int) {
    0 <= i <= dx && 0 <= j <= dy && err == dx * (j + 1) - dy * (i + 1)
    && (dx >= dy ==> -dx <= 2 * (err - dx + dy) <= dx)
    && (dx < dy ==> -dy <= 2 * (err - dx + dy) <= dy)
    && (dx == dy ==> i == j)
  }

  /** At an edge of the box the error term stops the step that would leave it. */
  lemma ErrorAtEdge(dx: int, dy: int, i: int, j: int, err: int)
    requires 0 <= i <= dx && 0 <= j <= dy && err == dx * (j + 1) - dy * (i + 1)
    ensures i == dx && j < dy ==> 2 * err <= -dy
    ensures j == dy && i < dx ==> 2 * err >= dx
  {
    if i == dx && j < dy {
      assert dx * (j + 1) <= dx * dy;
    }
    if j == dy && i < dx {
      assert dy * (i + 1) <= dy * dx;
    }
  }

  /** The error term after a step along x, y or both. */
  lemma ErrorShift(dx: int, dy: int, i: int, j: int, err: int)
    requires err == dx * (j + 1) - dy * (i + 1)
    ensures err - dy == dx * (j + 1) - dy * (i + 2)
    ensures err + dx == dx * (j + 2) - dy * (i + 1)
    ensures err - dy + dx == dx * (j + 2) - dy * (i + 2)
  {
  }

  /** One iteration before the target: the invariant is kept and the longer
      axis always advances. */
  lemma ErrorStep(dx: int, dy: int, i: int, j: int, err: int)
    requires ErrorInv(dx, dy, i, j, err) && !(i == dx && j == dy)
    ensures var stepX := 2 * err > -dy;
      var stepY := 2 * err < dx;
      ErrorInv(dx, dy, if stepX then i + 1 else i, if stepY then j + 1 else j,
        err - (if stepX then dy else 0) + (if stepY then dx else 0))
      && (dx >= dy ==> stepX) && (dx < dy ==> stepY)
  {
    ErrorAtEdge(dx, dy, i, j, err);
    ErrorShift(dx, dy, i, j, err);
  }

  /** A coordinate i steps from a toward b, with i at most their distance,
      lies between them, and reaches b exactly at the distance. */
  lemma TowardFacts(a: int, b: int, i: nat)
    requires i <= Abs(b - a)
    ensures var s := if a < b then 1 else -1;
      Between(a, Toward(a, s, i), b) && (Toward(a, s, i) == b <==> i == Abs(b - a))
  {
  }

  /** The state of the loop of `bresenham`: i steps taken along x, j along
      y, the error term and the current cell. */
  datatype Cursor = Cursor(i: nat, j: nat, err: int, x: int, y: int)

  /** The cursor before the first iteration. */
  function Start(pos0: Position, pos1: Position): Cursor {
    Cursor(0, 0, Abs(pos1.x - pos0.x) - Abs(pos1.y - pos0.y), pos0.x, pos0.y)
  }

  /** The steps the error term chooses in one iteration. */
  function Advance(pos0: Position, pos1: Position, c: Cursor): Cursor {
    var dx := Abs(pos1.x - pos0.x);
    var dy := Abs(pos1.y - pos0.y);
    var stepX := 2 * c.err > 0 - dy;
    var stepY := 2 * c.err < dx;
    Cursor(if stepX then c.i + 1 else c.i, if stepY then c.j + 1 else c.j,
      c.err - (if stepX then dy else 0) + (if stepY then dx else 0),
      if stepX then c.x + (if pos0.x < pos1.x then 1 else -1) else c.x,
      if stepY then c.y + (if pos0.y < pos1.y then 1 else -1) else c.y)
  }

  /** A cursor the loop can reach: the error invariant holds and the current
      cell is i steps along x and j along y toward the target. */
  predicate CursorOk(pos0: Position, pos1: Position, c: Cursor) {
    ErrorInv(Abs(pos1.x - pos0.x), Abs(pos1.y - pos0.y), c.i, c.j, c.err)
    && c.x == Toward(pos0.x, if pos0.x < pos1.x then 1 else -1, c.i)
    && c.y == Toward(pos0.y, if pos0.y < pos1.y then 1 else -1, c.j)
  }

  /** The steps c has taken along the longer axis. */
  function Along(pos0: Position, pos1: Position, c: Cursor): nat {
    if Abs(pos1.x - pos0.x) >= Abs(pos1.y - pos0.y) then c.i else c.j
  }

  /** The loop starts in a reachable state. */
  lemma StartOk(pos0: Position, pos1: Position)
    ensures CursorOk(pos0, pos1, Start(pos0, pos1))
  {
  }

  /** The current cell is the target exactly when both axes are done, and it
      always satisfies `CellAt` for the steps taken along the longer axis. */
  lemma CursorCell(pos0: Position, pos1: Position, c: Cursor)
    requires CursorOk(pos0, pos1, c)
    ensures (c.x == pos1.x && c.y == pos1.y) <==> (c.i == Abs(pos1.x - pos0.x) && c.j == Abs(pos1.y - pos0.y))
    ensures CellAt(Position(c.x, c.y), Along(pos0, pos1, c), pos0, pos1)
  {
    TowardFacts(pos0.x, pos1.x, c.i);
    TowardFacts(pos0.y, pos1.y, c.j);
  }

  /** An iteration away from the target keeps the cursor reachable. */
  lemma AdvanceOk(pos0: Position, pos1: Position, c: Cursor)
    requires CursorOk(pos0, pos1, c) && !(c.x == pos1.x && c.y == pos1.y)
    ensures CursorOk(pos0, pos1, Advance(pos0, pos1, c))
  {
    CursorCell(pos0, pos1, c);
    ErrorStep(Abs(pos1.x - pos0.x), Abs(pos1.y - pos0.y), c.i, c.j, c.err);
  }

  /** An iteration away from the target takes a step toward the target and
      advances along the longer axis. */
  lemma AdvanceMoves(pos0: Position, pos1: Position, c: Cursor)
    requires CursorOk(pos0, pos1, c) && !(c.x == pos1.x && c.y == pos1.y)
    ensures var c' := Advance(pos0, pos1, c);
      StepToward(Position(c.x, c.y), Position(c'.x, c'.y), pos0, pos1)
      && (if Abs(pos1.x - pos0.x) >= Abs(pos1.y - pos0.y) then c'.i == c.i + 1 else c'.j == c.j + 1)
      && c.i + c.j < c'.i + c'.j
  {
    CursorCell(pos0, pos1, c);
    ErrorStep(Abs(pos1.x - pos0.x), Abs(pos1.y - pos0.y), c.i, c.j, c.err);
  }

  /** The number of steps still to take along x and y. */
  function Remaining(pos0: Position, pos1: Position, c: Cursor): int {
    Abs(pos1.x - pos0.x) - c.i + Abs(pos1.y - pos0.y) - c.j
  }

  /** The loop stops once the current cell is the target. */
  predicate AtTarget(pos1: Position, c: Cursor) {
    c.x == pos1.x && c.y == pos1.y
  }

  /** The cells the loop pushes from cursor c on, up to and including the
      target, within `fuel` iterations (the fuel given is always enough:
      see `TraceLength`). */
  function Trace(pos0: Position, pos1: Position, c: Cursor, fuel: nat): seq<Position>
    decreases fuel
  {
    if AtTarget(pos1, c) then [pos1]
    else if fuel == 0 then []
    else [Position(c.x, c.y)] + Trace(pos0, pos1, Advance(pos0, pos1, c), fuel - 1)
  }

  /** The cursor after n iterations, staying put once at the target. */
  function Reach(pos0: Position, pos1: Position, n: nat): Cursor {
    if n == 0 then Start(pos0, pos1)
    else
      var c := Reach(pos0, pos1, n - 1);
      if AtTarget(pos1, c) then c else Advance(pos0, pos1, c)
  }

  /** The line `bresenham` returns: the trace from the start, with fuel for
      every step along both axes. */
  function BresenhamLine(pos0: Position, pos1: Position): seq<Position> {
    Trace(pos0, pos1, Start(pos0, pos1), Abs(pos1.x - pos0.x) + Abs(pos1.y - pos0.y))
  }

  /** Every cursor the loop reaches satisfies `CursorOk`. */
  lemma {:induction false} ReachOk(pos0: Position, pos1: Position, n: nat)
    ensures CursorOk(pos0, pos1, Reach(pos0, pos1, n))
  {
    if n == 0 {
      StartOk(pos0, pos1);
    } else {
      ReachOk(pos0, pos1, n - 1);
      if !AtTarget(pos1, Reach(pos0, pos1, n - 1)) {
        AdvanceOk(pos0, pos1, Reach(pos0, pos1, n - 1));
      }
    }
  }

  /** What the trace needs of the cursor after n iterations: its cell is
      the `Along`-th cell of the line, and it is at the target exactly when
      no step remains, having then taken the longer axis' length of steps
      along it. */
  lemma ReachStep(pos0: Position, pos1: Position, n: nat)
    ensures var c := Reach(pos0, pos1, n);
      0 <= Remaining(pos0, pos1, c)
      && CellAt(Position(c.x, c.y), Along(pos0, pos1, c), pos0, pos1)
      && (AtTarget(pos1, c) <==> Remaining(pos0, pos1, c) == 0)
      && (AtTarget(pos1, c) ==> Along(pos0, pos1, c) == MaxNat(Abs(pos1.x - pos0.x), Abs(pos1.y - pos0.y)))
  {
    ReachOk(pos0, pos1, n);
    CursorCell(pos0, pos1, Reach(pos0, pos1, n));
  }

  /** An iteration away from the target leaves fewer steps, takes one step
      toward the target, and one step along the longer axis. */
  lemma ReachMoves(pos0: Position, pos1: Position, n: nat)
    ensures var c := Reach(pos0, pos1, n);
      var c' := Reach(pos0, pos1, n + 1);
      !AtTarget(pos1, c) ==>
        Remaining(pos0, pos1, c') < Remaining(pos0, pos1, c)
        && StepToward(Position(c.x, c.y), Position(c'.x, c'.y), pos0, pos1)
        && Along(pos0, pos1, c') == Along(pos0, pos1, c) + 1
  {
    ReachOk(pos0, pos1, n);
    var c := Reach(pos0, pos1, n);
    if !AtTarget(pos1, c) {
      AdvanceMoves(pos0, pos1, c);
    }
  }

  /** One unfolding of the trace from the n-th cursor. */
  lemma TraceUnfold(pos0: Position, pos1: Position, n: nat, fuel: nat)
    ensures AtTarget(pos1, Reach(pos0, pos1, n)) ==> Trace(pos0, pos1, Reach(pos0, pos1, n), fuel) == [pos1]
    ensures !AtTarget(pos1, Reach(pos0, pos1, n)) && fuel > 0 ==>
      Trace(pos0, pos1, Reach(pos0, pos1, n), fuel)
      == [Position(Reach(pos0, pos1, n).x, Reach(pos0, pos1, n).y)] + Trace(pos0, pos1, Reach(pos0, pos1, n + 1), fuel - 1)
  {
  }

  /** Every cell of t satisfies `CellAt` for its index counted from base. */
  predicate CellsFrom(t: seq<Position>, base: nat, pos0: Position, pos1: Position) {
    forall k :: 0 <= k < |t| ==> CellAt(t[k], base + k, pos0, pos1)
  }

  /** A cell at index `base` followed by cells at the next indices. */
  lemma ConsCells(p: Position, t: seq<Position>, base: nat, pos0: Position, pos1: Position)
    requires CellAt(p, base, pos0, pos1) && CellsFrom(t, base + 1, pos0, pos1)
    ensures CellsFrom([p] + t, base, pos0, pos1)
  {
    forall k | 0 <= k < |[p] + t|
      ensures CellAt(([p] + t)[k], base + k, pos0, pos1)
    {
      if k > 0 {
        assert ([p] + t)[k] == t[k - 1] && CellAt(t[k - 1], base + 1 + (k - 1), pos0, pos1);
      }
    }
  }

  /** A step followed by steps is a sequence of steps. */
  lemma ConsSteps(p: Position, t: seq<Position>, pos0: Position, pos1: Position)
    requires |t| > 0 && StepToward(p, t[0], pos0, pos1)
    requires forall k :: 0 <= k < |t| - 1 ==> StepToward(t[k], t[k + 1], pos0, pos1)
    ensures forall k :: 0 <= k < |[p] + t| - 1 ==> StepToward(([p] + t)[k], ([p] + t)[k + 1], pos0, pos1)
  {
    forall k | 0 <= k < |[p] + t| - 1
      ensures StepToward(([p] + t)[k], ([p] + t)[k + 1], pos0, pos1)
    {
      if k > 0 {
        assert ([p] + t)[k] == t[k - 1] && ([p] + t)[k + 1] == t[k];
      }
    }
  }

  /** The trace from the n-th cursor starts at its cell. */
  lemma TraceFirst(pos0: Position, pos1: Position, n: nat, fuel: nat)
    requires Remaining(pos0, pos1, Reach(pos0, pos1, n)) <= fuel
    ensures var t := Trace(pos0, pos1, Reach(pos0, pos1, n), fuel);
      |t| > 0 && t[0] == Position(Reach(pos0, pos1, n).x, Reach(pos0, pos1, n).y)
  {
    ReachStep(pos0, pos1, n);
    TraceUnfold(pos0, pos1, n, fuel);
  }

  /** The trace from the n-th cursor, given fuel for the steps remaining,
      ends at the target and holds one cell per remaining step along the
      longer axis. */
  lemma {:induction false} TraceLength(pos0: Position, pos1: Position, n: nat, fuel: nat)
    requires Remaining(pos0, pos1, Reach(pos0, pos1, n)) <= fuel
    ensures var t := Trace(pos0, pos1, Reach(pos0, pos1, n), fuel);
      |t| > 0 && t[|t| - 1] == pos1
      && |t| + Along(pos0, pos1, Reach(pos0, pos1, n)) == MaxNat(Abs(pos1.x - pos0.x), Abs(pos1.y - pos0.y)) + 1
    decreases fuel
  {
    ReachStep(pos0, pos1, n);
    ReachMoves(pos0, pos1, n);
    TraceUnfold(pos0, pos1, n, fuel);
    if !AtTarget(pos1, Reach(pos0, pos1, n)) {
      TraceLength(pos0, pos1, n + 1, fuel - 1);
    }
  }

  /** Every cell of the trace from the n-th cursor satisfies `CellAt` for its
      index counted from the start of the line. */
  lemma {:induction false} TraceCells(pos0: Position, pos1: Position, n: nat, fuel: nat)
    requires Remaining(pos0, pos1, Reach(pos0, pos1, n)) <= fuel
    ensures CellsFrom(Trace(pos0, pos1, Reach(pos0, pos1, n), fuel), Along(pos0, pos1, Reach(pos0, pos1, n)), pos0, pos1)
    decreases fuel
  {
    ReachStep(pos0, pos1, n);
    ReachMoves(pos0, pos1, n);
    TraceUnfold(pos0, pos1, n, fuel);
    var c := Reach(pos0, pos1, n);
    if AtTarget(pos1, c) {
      ConsCells(Position(c.x, c.y), [], Along(pos0, pos1, c), pos0, pos1);
      assert [Position(c.x, c.y)] + [] == [pos1];
    } else {
      TraceCells(pos0, pos1, n + 1, fuel - 1);
      ConsCells(Position(c.x, c.y), Trace(pos0, pos1, Reach(pos0, pos1, n + 1), fuel - 1), Along(pos0, pos1, c), pos0, pos1);
    }
  }

  /** Consecutive cells of the trace from the n-th cursor are steps toward
      the target. */
  lemma {:induction false} TraceSteps(pos0: Position, pos1: Position, n: nat, fuel: nat)
    requires Remaining(pos0, pos1, Reach(pos0, pos1, n)) <= fuel
    ensures var t := Trace(pos0, pos1, Reach(pos0, pos1, n), fuel);
      forall k :: 0 <= k < |t| - 1 ==> StepToward(t[k], t[k + 1], pos0, pos1)
    decreases fuel
  {
    ReachStep(pos0, pos1, n);
    ReachMoves(pos0, pos1, n);
    TraceUnfold(pos0, pos1, n, fuel);
    var c := Reach(pos0, pos1, n);
    if !AtTarget(pos1, c) {
      TraceSteps(pos0, pos1, n + 1, fuel - 1);
      TraceFirst(pos0, pos1, n + 1, fuel - 1);
      ConsSteps(Position(c.x, c.y), Trace(pos0, pos1, Reach(pos0, pos1, n + 1), fuel - 1), pos0, pos1);
    }
  }

  /** Cells satisfying `CellAt` for distinct indices are distinct. */
  lemma DistinctCells(line: seq<Position>, pos0: Position, pos1: Position)
    requires CellsFrom(line, 0, pos0, pos1)
    ensures forall a, b :: 0 <= a < b < |line| ==> line[a] != line[b]
  {
    forall a, b | 0 <= a < b < |line|
      ensures line[a] != line[b]
    {
      assert CellAt(line[a], a, pos0, pos1) && CellAt(line[b], b, pos0, pos1);
    }
  }

  /** The line starts at `pos0`, ends at `pos1`, has one cell per step along
      the longer axis, moves at most one cell per axis per step toward the
      target, never leaves the box spanned by the endpoints and never visits
      a cell twice. */
  lemma BresenhamLineShape(pos0: Position, pos1: Position)
    ensures var line := BresenhamLine(pos0, pos1);
      |line| == MaxNat(Abs(pos1.x - pos0.x), Abs(pos1.y - pos0.y)) + 1
      && line[0] == pos0 && line[|line| - 1] == pos1
      && (forall k :: 0 <= k < |line| - 1 ==> StepToward(line[k], line[k + 1], pos0, pos1))
      && (forall k :: 0 <= k < |line| ==>
        Between(pos0.x, line[k].x, pos1.x) && Between(pos0.y, line[k].y, pos1.y))
      && (forall a, b :: 0 <= a < b < |line| ==> line[a] != line[b])
  {
    var line := BresenhamLine(pos0, pos1);
    var fuel := Abs(pos1.x - pos0.x) + Abs(pos1.y - pos0.y);
    assert Reach(pos0, pos1, 0) == Start(pos0, pos1);
    TraceFirst(pos0, pos1, 0, fuel);
    TraceLength(pos0, pos1, 0, fuel);
    TraceCells(pos0, pos1, 0, fuel);
    TraceSteps(pos0, pos1, 0, fuel);
    assert Along(pos0, pos1, Start(pos0, pos1)) == 0;
    DistinctCells(line, pos0, pos1);
  }

  /** A line from a cell to itself is that cell alone. */
  lemma BresenhamLinePoint(p: Position)
    ensures BresenhamLine(p, p) == [p]
  {
    StartOk(p, p);
  }

  /** The target is on the line. */
  lemma TargetOnLine(pos0: Position, pos1: Position)
    ensures pos1 in BresenhamLine(pos0, pos1)
  {
    BresenhamLineShape(pos0, pos1);
    var line := BresenhamLine(pos0, pos1);
    assert line[|line| - 1] == pos1;
  }

  /** A prefix that misses the target cannot be a whole line that holds it. */
  lemma PrefixMissesTarget(prefix: seq<Position>, line: seq<Position>, pos1: Position)
    requires pos1 in line && pos1 !in prefix
    ensures prefix + [] != line
  {
    assert prefix + [] == prefix;
  }

  /** Moving a cell from the front of the rest to the end of the prefix
      keeps their concatenation. */
  lemma PushFront(prefix: seq<Position>, p: Position, rest: seq<Position>)
    ensures (prefix + [p]) + rest == prefix + ([p] + rest)
  {
  }

  /** One iteration away from the target moves the current cell from the
      front of the trace to the end of the cells pushed so far. */
  lemma TraceStep(pos0: Position, pos1: Position, c: Cursor, fuel: nat, pushed: seq<Position>)
    requires pushed + Trace(pos0, pos1, c, fuel) == BresenhamLine(pos0, pos1)
    requires !AtTarget(pos1, c) && fuel > 0
    ensures (pushed + [Position(c.x, c.y)]) + Trace(pos0, pos1, Advance(pos0, pos1, c), fuel - 1)
      == BresenhamLine(pos0, pos1)
  {
    PushFront(pushed, Position(c.x, c.y), Trace(pos0, pos1, Advance(pos0, pos1, c), fuel - 1));
  }

  /** Before the loop nothing is pushed and the whole line is still to trace. */
  lemma TraceStart(pos0: Position, pos1: Position, c: Cursor, fuel: nat)
    requires c == Start(pos0, pos1) && fuel == Abs(pos1.x - pos0.x) + Abs(pos1.y - pos0.y)
    ensures [] + Trace(pos0, pos1, c, fuel) == BresenhamLine(pos0, pos1)
  {
    assert [] + Trace(pos0, pos1, c, fuel) == Trace(pos0, pos1, c, fuel);
  }

  /** The loop body's updates, field by field, are one iteration of `Advance`. */
  lemma AdvanceMatches(pos0: Position, pos1: Position, c: Cursor, e2: int, next: Cursor)
    requires e2 == 2 * c.err
    requires var dx: int, dy: int := Abs(pos1.x - pos0.x), Abs(pos1.y - pos0.y);
      var sx, sy := (if pos0.x < pos1.x then 1 else -1), (if pos0.y < pos1.y then 1 else -1);
      && next.i == (if e2 > -dy then c.i + 1 else c.i)
      && next.j == (if e2 < dx then c.j + 1 else c.j)
      && next.err == c.err - (if e2 > -dy then dy else 0) + (if e2 < dx then dx else 0)
      && next.x == (if e2 > -dy then c.x + sx else c.x)
      && next.y == (if e2 < dx then c.y + sy else c.y)
    ensures next == Advance(pos0, pos1, c)
  {
  }

  /** `bresenham`: pushes the current cell, stops at the target, and
      otherwise steps along x, y or both as the doubled error term says. */
  method Bresenham(pos0: Position, pos1: Position) returns (line: seq<Position>)
    ensures line == BresenhamLine(pos0, pos1)
  {
    line := [];
    var dx: int := Abs(pos1.x - pos0.x);
    var dy: int := Abs(pos1.y - pos0.y);
    var sx := if pos0.x < pos1.x then 1 else -1;
    var sy := if pos0.y < pos1.y then 1 else -1;
    var err := dx - dy;
    var x0 := pos0.x;
    var y0 := pos0.y;
    ghost var i: nat := 0;
    ghost var j: nat := 0;
    ghost var fuel: nat := dx + dy;
    TargetOnLine(pos0, pos1);
    TraceStart(pos0, pos1, Cursor(i, j, err, x0, y0), fuel);
    while true
      invariant line + Trace(pos0, pos1, Cursor(i, j, err, x0, y0), fuel) == BresenhamLine(pos0, pos1)
      invariant pos1 !in line
      decreases fuel
    {
      ghost var c := Cursor(i, j, err, x0, y0);
      ghost var pushed := line;
      line := line + [Position(x0, y0)];
      if x0 == pos1.x && y0 == pos1.y {
        break;
      }
      if fuel == 0 {
        PrefixMissesTarget(pushed, BresenhamLine(pos0, pos1), pos1);
        assert false;
      }
      var e2 := 2 * err;
      if e2 > -dy {
        err := err - dy;
        x0 := x0 + sx;
        i := i + 1;
      }
      if e2 < dx {
        err := err + dx;
        y0 := y0 + sy;
        j := j + 1;
      }
      AdvanceMatches(pos0, pos1, c, e2, Cursor(i, j, err, x0, y0));
      TraceStep(pos0, pos1, c, fuel, pushed);
      fuel := fuel - 1;
    }
  }
}
