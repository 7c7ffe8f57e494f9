/** `bresenham` of the first dungeon game (wungeons/src/render.rs:61-92).
    Its loop is the same, statement for statement, as the one in
    wungeons2/src/render.rs, so this module runs that loop (`Render.Bresenham`)
    on the same coordinates and carries its proved shape over to this crate's
    `Position`. */
module Wungeons1Render {
  import opened Wungeons1Components
  import Components
  import Render

  function Shared(p: Position): Components.Position {
    Components.Position(p.x, p.y)
  }

  /** The positions of a line, in this crate's `Position` type. */
  function Lift(line: seq<Components.Position>): (r: seq<Position>)
    ensures |r| == |line|
    ensures forall k :: 0 <= k < |r| ==> r[k].x == line[k].x && r[k].y == line[k].y
  {
    if line == [] then [] else [Position(line[0].x, line[0].y)] + Lift(line[1..])
  }

  /** One step of the line: each coordinate moves by 0 or by one unit toward
      the target, and at least one moves. */
  predicate StepToward(p: Position, q: Position, pos0: Position, pos1: Position) {
    Render.StepToward(Shared(p), Shared(q), Shared(pos0), Shared(pos1))
  }

  /** The line between two cells of this crate: the shared line, lifted. */
  function Line(pos0: Position, pos1: Position): seq<Position> {
    Lift(Render.BresenhamLine(Shared(pos0), Shared(pos1)))
  }

  /** The line has one cell per step along the longer axis, and starts and
      ends at the endpoints. */
  lemma LineEnds(pos0: Position, pos1: Position)
    ensures var line := Line(pos0, pos1);
      |line| == Render.MaxNat(Render.Abs(pos1.x - pos0.x), Render.Abs(pos1.y - pos0.y)) + 1
      && line[0] == pos0 && line[|line| - 1] == pos1
  {
    Render.BresenhamLineShape(Shared(pos0), Shared(pos1));
  }

  /** Consecutive cells of the line are steps toward the target. */
  lemma LineSteps(pos0: Position, pos1: Position)
    ensures var line := Line(pos0, pos1);
      forall k :: 0 <= k < |line| - 1 ==> StepToward(line[k], line[k + 1], pos0, pos1)
  {
    var shared := Render.BresenhamLine(Shared(pos0), Shared(pos1));
    Render.BresenhamLineShape(Shared(pos0), Shared(pos1));
    var line := Line(pos0, pos1);
    forall k | 0 <= k < |line| - 1
      ensures StepToward(line[k], line[k + 1], pos0, pos1)
    {
      assert Shared(line[k]) == shared[k] && Shared(line[k + 1]) == shared[k + 1];
    }
  }

  /** The line stays in the box spanned by its endpoints and visits no cell
      twice. */
  lemma LineInBox(pos0: Position, pos1: Position)
    ensures var line := Line(pos0, pos1);
      (forall k :: 0 <= k < |line| ==>
        Render.Between(pos0.x, line[k].x, pos1.x) && Render.Between(pos0.y, line[k].y, pos1.y))
      && (forall a, b :: 0 <= a < b < |line| ==> line[a] != line[b])
  {
    var shared := Render.BresenhamLine(Shared(pos0), Shared(pos1));
    Render.BresenhamLineShape(Shared(pos0), Shared(pos1));
    var line := Line(pos0, pos1);
    forall a, b | 0 <= a < b < |line|
      ensures line[a] != line[b]
    {
      assert shared[a] != shared[b];
    }
  }

  /** `bresenham`: the line from `pos0` to `pos1` has one cell per step
      along the longer axis, starts at `pos0`, ends at `pos1`, steps by at
      most one unit per axis toward the target, stays in the box spanned by
      the endpoints and visits no cell twice; from a cell to itself it is
      that cell alone. */
  method Bresenham(pos0: Position, pos1: Position) returns (line: seq<Position>)
    ensures |line| == Render.MaxNat(Render.Abs(pos1.x - pos0.x), Render.Abs(pos1.y - pos0.y)) + 1
    ensures line[0] == pos0 && line[|line| - 1] == pos1
    ensures forall k :: 0 <= k < |line| - 1 ==> StepToward(line[k], line[k + 1], pos0, pos1)
    ensures forall k :: 0 <= k < |line| ==>
      Render.Between(pos0.x, line[k].x, pos1.x) && Render.Between(pos0.y, line[k].y, pos1.y)
    ensures forall a, b :: 0 <= a < b < |line| ==> line[a] != line[b]
    ensures pos0 == pos1 ==> line == [pos0]
  {
    var shared := Render.Bresenham(Shared(pos0), Shared(pos1));
    line := Lift(shared);
    LineEnds(pos0, pos1);
    LineSteps(pos0, pos1);
    LineInBox(pos0, pos1);
  }
}
