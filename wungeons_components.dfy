/** The first game's positions, rectangles and component kinds
    (wungeons/src/components.rs). `isize` is `int`, `usize` `nat`. */
module Wungeons1Components {
  import opened Wrappers

  datatype Position = Position(x: int, y: int)

  /** `Position + &Position`, componentwise. */
  function Add(p: Position, q: Position): (r: Position)
    ensures r.x - p.x == q.x && r.y - p.y == q.y
  {
    Position(p.x + q.x, p.y + q.y)
  }

  datatype Keycode = Up | Down | Left | Right

  const DIRECTIONS: seq<(Keycode, Position)> := [
    (Up, Position(0, -1)), (Down, Position(0, 1)), (Left, Position(-1, 0)), (Right, Position(1, 0))]

  const DIAGONAL_DIRECTIONS: seq<(Keycode, Position)> := [
    (Up, Position(-1, -1)), (Down, Position(1, 1)), (Left, Position(-1, 1)), (Right, Position(1, -1))]

  datatype Rect = Rect(width: int, height: int)

  /** `Rect::area`. */
  function Area(r: Rect): (a: int)
    ensures r.width >= 0 && r.height >= 0 ==> a >= 0
    ensures r.width == 0 || r.height == 0 ==> a == 0
  {
    r.width * r.height
  }

  /** `Rect::center`: half the size added, rounded toward zero as Rust's `/` does. */
  function Center(r: Rect, pos: Position): (c: Position)
    ensures r.width >= 0 ==> pos.x <= c.x <= pos.x + r.width && 0 <= r.width - 2 * (c.x - pos.x) <= 1
    ensures r.height >= 0 ==> pos.y <= c.y <= pos.y + r.height && 0 <= r.height - 2 * (c.y - pos.y) <= 1
    ensures r.width < 0 ==> pos.x + r.width <= c.x <= pos.x && -1 <= r.width - 2 * (c.x - pos.x) <= 0
    ensures r.height < 0 ==> pos.y + r.height <= c.y <= pos.y && -1 <= r.height - 2 * (c.y - pos.y) <= 0
  {
    Position(pos.x + (if r.width >= 0 then r.width / 2 else -((-r.width) / 2)),
             pos.y + (if r.height >= 0 then r.height / 2 else -((-r.height) / 2)))
  }

  /** `intersects`: closed boxes that share a point. */
  function Intersects(pos1: Position, rect1: Rect, pos2: Position, rect2: Rect): (b: bool)
    ensures rect1.width >= 0 && rect1.height >= 0 && rect2.width >= 0 && rect2.height >= 0 ==>
      (b <==> exists p: Position :: ContainsPoint(pos1, rect1, p) && ContainsPoint(pos2, rect2, p))
  {
    var b := pos1.x <= pos2.x + rect2.width
      && pos1.x + rect1.width >= pos2.x
      && pos1.y <= pos2.y + rect2.height
      && pos1.y + rect1.height >= pos2.y;
    if b && rect1.width >= 0 && rect1.height >= 0 && rect2.width >= 0 && rect2.height >= 0 then
      var p := Position(if pos1.x < pos2.x then pos2.x else pos1.x, if pos1.y < pos2.y then pos2.y else pos1.y);
      assert ContainsPoint(pos1, rect1, p) && ContainsPoint(pos2, rect2, p);
      b
    else
      b
  }

  /** `contains_point`: the closed box holds the point. */
  function ContainsPoint(pos1: Position, rect1: Rect, pos2: Position): bool {
    pos2.x >= pos1.x
      && pos2.x <= pos1.x + rect1.width
      && pos2.y >= pos1.y
      && pos2.y <= pos1.y + rect1.height
  }

  lemma IntersectsSymmetric(pos1: Position, rect1: Rect, pos2: Position, rect2: Rect)
    ensures Intersects(pos1, rect1, pos2, rect2) == Intersects(pos2, rect2, pos1, rect1)
  {
  }

  lemma ContainsPointIsIntersects(pos1: Position, rect1: Rect, pos2: Position)
    ensures ContainsPoint(pos1, rect1, pos2) == Intersects(pos1, rect1, pos2, Rect(0, 0))
  {
  }

  datatype Item = Key

  /** `get_item_char`. */
  function GetItemChar(item: Item): (c: char)
    ensures item == Key ==> c == 'k'
  {
    match item
    case Key => 'k'
  }

  datatype Component =
    | Minion(minion: Option<bool>)
    | Wall
    | SecretWall(secretWall: Option<nat>)
    | Room
    | Door
    | PositionC(position: Option<Position>)
    | Render(render: Option<char>)
    | ZIndex(zIndex: Option<nat>)
    | Player
    | Drop(drop: Option<Item>)
    | ItemC(item: Option<Item>)
    | Fog(fog: Option<bool>)
    | Solid

  /** The variant index of a component. */
  function Kind(c: Component): nat {
    match c
    case Minion(_) => 0 case Wall => 1 case SecretWall(_) => 2 case Room => 3
    case Door => 4 case PositionC(_) => 5 case Render(_) => 6 case ZIndex(_) => 7
    case Player => 8 case Drop(_) => 9 case ItemC(_) => 10 case Fog(_) => 11 case Solid => 12
  }

  /** A component whose payload, if it has one, is `None`. */
  predicate IsDefault(c: Component) {
    match c
    case Minion(p) => p.None? case SecretWall(p) => p.None? case PositionC(p) => p.None?
    case Render(p) => p.None? case ZIndex(p) => p.None? case Drop(p) => p.None?
    case ItemC(p) => p.None? case Fog(p) => p.None?
    case _ => true
  }

  /** `get_default_component`. */
  function GetDefaultComponent(c: Component): (d: Component)
    ensures Kind(d) == Kind(c) && IsDefault(d)
  {
    match c
    case PositionC(_) => PositionC(None)
    case Wall => Wall
    case Render(_) => Render(None)
    case ZIndex(_) => ZIndex(None)
    case Room => Room
    case Door => Door
    case Player => Player
    case Minion(_) => Minion(None)
    case Drop(_) => Drop(None)
    case ItemC(_) => ItemC(None)
    case SecretWall(_) => SecretWall(None)
    case Fog(_) => Fog(None)
    case Solid => Solid
  }

  /** Same default exactly when same kind; idempotent; fixes exactly the defaults. */
  lemma DefaultComponentKinds(c: Component, c': Component)
    ensures GetDefaultComponent(c) == GetDefaultComponent(c') <==> Kind(c) == Kind(c')
    ensures GetDefaultComponent(GetDefaultComponent(c)) == GetDefaultComponent(c)
    ensures GetDefaultComponent(c) == c <==> IsDefault(c)
  {
  }
}
