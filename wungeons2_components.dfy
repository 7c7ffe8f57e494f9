/** Positions, rectangles and the component kinds of wungeons2
    (wungeons2/src/components.rs), with the payload types they carry
    (items, view types and events). `isize` is `int`; overflow is not modelled. */
module Components {
  import opened Wrappers
  import opened Colors
  import opened Effects

  datatype Position = Position(x: int, y: int)

  /** `Position::ZERO`. */
  const ZERO := Position(0, 0)

  /** `Position + &Position`, componentwise. */
  function Add(p: Position, q: Position): (r: Position)
    ensures r.x - p.x == q.x && r.y - p.y == q.y
  {
    Position(p.x + q.x, p.y + q.y)
  }

  datatype KeyCode = ArrowUp | ArrowDown | ArrowLeft | ArrowRight

  const DIRECTIONS: seq<(KeyCode, Position)> := [
    (ArrowUp, Position(0, -1)), (ArrowDown, Position(0, 1)),
    (ArrowLeft, Position(-1, 0)), (ArrowRight, Position(1, 0))]

  const DIAGONAL_DIRECTIONS: seq<(KeyCode, Position)> := [
    (ArrowUp, Position(-1, -1)), (ArrowDown, Position(1, 1)),
    (ArrowLeft, Position(-1, 1)), (ArrowRight, Position(1, -1))]

  datatype Rect = Rect(width: int, height: int)

  /** Rust's `/` on integers rounds toward zero. */
  function TruncDiv(a: int, b: int): (q: int)
    requires b > 0
    ensures a >= 0 ==> q == a / b
    ensures a < 0 ==> q == -((-a) / b)
  {
    if a >= 0 then a / b else -((-a) / b)
  }

  /** `Rect::area`. */
  function Area(r: Rect): (a: int)
    ensures r.width >= 0 && r.height >= 0 ==> a >= 0
    ensures r.width == 0 || r.height == 0 ==> a == 0
  {
    r.width * r.height
  }

  /** `Rect::center`: the position offset by half the size, rounded toward zero. */
  function Center(r: Rect, pos: Position): (c: Position)
    ensures r.width >= 0 ==> pos.x <= c.x <= pos.x + r.width && 0 <= r.width - 2 * (c.x - pos.x) <= 1
    ensures r.height >= 0 ==> pos.y <= c.y <= pos.y + r.height && 0 <= r.height - 2 * (c.y - pos.y) <= 1
    ensures r.width < 0 ==> pos.x + r.width <= c.x <= pos.x && -1 <= r.width - 2 * (c.x - pos.x) <= 0
    ensures r.height < 0 ==> pos.y + r.height <= c.y <= pos.y && -1 <= r.height - 2 * (c.y - pos.y) <= 0
  {
    Position(pos.x + TruncDiv(r.width, 2), pos.y + TruncDiv(r.height, 2))
  }

  /** `intersects`: closed boxes [x, x + width] × [y, y + height] that share a point. */
  function Intersects(pos1: Position, rect1: Rect, pos2: Position, rect2: Rect): (b: bool)
    ensures rect1.width >= 0 && rect1.height >= 0 && rect2.width >= 0 && rect2.height >= 0 ==>
      (b <==> exists p: Position :: ContainsPoint(pos1, rect1, p) && ContainsPoint(pos2, rect2, p))
  {
    var b := pos1.x <= pos2.x + rect2.width
      && pos1.x + rect1.width >= pos2.x
      && pos1.y <= pos2.y + rect2.height
      && pos1.y + rect1.height >= pos2.y;
    if b && rect1.width >= 0 && rect1.height >= 0 && rect2.width >= 0 && rect2.height >= 0 then
      var p := Position(Max(pos1.x, pos2.x), Max(pos1.y, pos2.y));
      assert ContainsPoint(pos1, rect1, p) && ContainsPoint(pos2, rect2, p);
      b
    else
      b
  }

  function Max(a: int, b: int): int {
    if a < b then b else a
  }

  /** `contains_point`: the closed box holds the point. */
  function ContainsPoint(pos1: Position, rect1: Rect, pos2: Position): bool {
    pos2.x >= pos1.x
      && pos2.x <= pos1.x + rect1.width
      && pos2.y >= pos1.y
      && pos2.y <= pos1.y + rect1.height
  }

  /** The two rectangles can be swapped. */
  lemma IntersectsSymmetric(pos1: Position, rect1: Rect, pos2: Position, rect2: Rect)
    ensures Intersects(pos1, rect1, pos2, rect2) == Intersects(pos2, rect2, pos1, rect1)
  {
  }

  /** Holding a point is intersecting with a zero-size rectangle at it. */
  lemma ContainsPointIsIntersects(pos1: Position, rect1: Rect, pos2: Position)
    ensures ContainsPoint(pos1, rect1, pos2) == Intersects(pos1, rect1, pos2, Rect(0, 0))
  {
  }

  /** Touching edges count as intersecting. */
  lemma TouchingIntersects(pos1: Position, rect1: Rect, rect2: Rect)
    requires rect1.width >= 0 && rect1.height >= 0 && rect2.width >= 0 && rect2.height >= 0
    ensures Intersects(pos1, rect1, Position(pos1.x + rect1.width, pos1.y), rect2)
  {
  }

  /** Position addition forms a commutative monoid with `ZERO`. */
  lemma AddLaws(p: Position, q: Position, r: Position)
    ensures Add(p, q) == Add(q, p)
    ensures Add(Add(p, q), r) == Add(p, Add(q, r))
    ensures Add(p, ZERO) == p && Add(ZERO, p) == p
  {
  }

  /** The four directions are the unit axis steps, the four diagonals the unit
      diagonal steps, each listed once. */
  lemma DirectionSteps(i: nat)
    requires i < 4
    ensures var d := DIRECTIONS[i].1; (d.x == 0 || d.y == 0) && (d.x * d.x + d.y * d.y == 1)
    ensures var d := DIAGONAL_DIRECTIONS[i].1; d.x * d.x == 1 && d.y * d.y == 1
    ensures forall j :: 0 <= j < 4 && j != i ==> DIRECTIONS[j].1 != DIRECTIONS[i].1
    ensures forall j :: 0 <= j < 4 && j != i ==> DIAGONAL_DIRECTIONS[j].1 != DIAGONAL_DIRECTIONS[i].1
  {
  }

  datatype Item =
    | Key | Glasses | MembershipCard | VowelVortex | ConsonantConundrum | DoubleDouble
    | DustyYam | SparklingToaster | TranquilStapler | DyingFicus | MissingCrab
    | BreakfastCoffee | SpicyPillow | SuspiciousSausage | ElectricChair | CosmicTeapot
    | GlowingBrick | SizzlingRug | FuzzyKeyboard | BathroomSteak

  datatype ViewType = PlayerView | MinionView | SecretWallView

  /** The events the game queues (wungeons2/src/event.rs:19-35). */
  datatype Event =
    | GameStart
    | Refresh
    | Welcome
    | NoEvent
    | ComponentChanged(component: Component)
    | View(viewer: (nat, ViewType), viewed: (nat, ViewType))
    | CreateName(name: Option<string>)
    | BuyItem(purchase: (nat, Item, nat, nat))
    | CreateMystery(id: nat)
    | UseEffect(effect: Effect)

  /** Text with an optional (foreground, background) colour pair. */
  type DialogueLine = (string, Option<(Option<Rgba>, Option<Rgba>)>)

  datatype Component =
    | Minion(minion: Option<bool>)
    | Wall
    | SecretWall(secretWall: Option<nat>)
    | Room
    | Door
    | PositionC(position: Option<Position>)
    | Render(render: Option<(string, Rgba)>)
    | BackgroundColor(background: Option<Rgba>)
    | ZIndex(zIndex: Option<int>)
    | Player
    | Drop(drop: Option<Item>)
    | ItemC(item: Option<Item>)
    | Fog(fog: Option<bool>)
    | Solid
    | Dialogue(dialogue: Option<(seq<DialogueLine>, seq<(string, Event)>)>)
    | DialogueChar
    | Activated(activated: Option<bool>)
    | Cooldown(cooldown: Option<nat>)
    | StepCount(stepCount: Option<nat>)
    | AffectsFog
    | ViewDistance(viewDistance: Option<nat>)
    | Viewable(viewable: Option<(ViewType, seq<nat>)>)
    | SecretWallHint
    | Paywall(paywall: Option<nat>)
    | Mystery
    | Hidden(hidden: Option<bool>)

  /** The variant index of a component, used to say that two components are
      of the same kind. */
  function Kind(c: Component): nat {
    match c
    case Minion(_) => 0 case Wall => 1 case SecretWall(_) => 2 case Room => 3
    case Door => 4 case PositionC(_) => 5 case Render(_) => 6 case BackgroundColor(_) => 7
    case ZIndex(_) => 8 case Player => 9 case Drop(_) => 10 case ItemC(_) => 11
    case Fog(_) => 12 case Solid => 13 case Dialogue(_) => 14 case DialogueChar => 15
    case Activated(_) => 16 case Cooldown(_) => 17 case StepCount(_) => 18
    case AffectsFog => 19 case ViewDistance(_) => 20 case Viewable(_) => 21
    case SecretWallHint => 22 case Paywall(_) => 23 case Mystery => 24 case Hidden(_) => 25
  }

  /** A component whose payload, if it has one, is `None`. */
  predicate IsDefault(c: Component) {
    match c
    case Minion(p) => p.None? case SecretWall(p) => p.None? case PositionC(p) => p.None?
    case Render(p) => p.None? case BackgroundColor(p) => p.None? case ZIndex(p) => p.None?
    case Drop(p) => p.None? case ItemC(p) => p.None? case Fog(p) => p.None?
    case Dialogue(p) => p.None? case Activated(p) => p.None? case Cooldown(p) => p.None?
    case StepCount(p) => p.None? case ViewDistance(p) => p.None? case Viewable(p) => p.None?
    case Paywall(p) => p.None? case Hidden(p) => p.None?
    case _ => true
  }

  /** `get_default_component`: the same variant with its payload cleared. */
  function GetDefaultComponent(c: Component): (d: Component)
    ensures Kind(d) == Kind(c) && IsDefault(d)
  {
    match c
    case PositionC(_) => PositionC(None)
    case Wall => Wall
    case Render(_) => Render(None)
    case ZIndex(_) => ZIndex(None)
    case Room => Room
    case Door => Door
    case Player => Player
    case Minion(_) => Minion(None)
    case Drop(_) => Drop(None)
    case ItemC(_) => ItemC(None)
    case SecretWall(_) => SecretWall(None)
    case Fog(_) => Fog(None)
    case Solid => Solid
    case Dialogue(_) => Dialogue(None)
    case DialogueChar => DialogueChar
    case Activated(_) => Activated(None)
    case Cooldown(_) => Cooldown(None)
    case StepCount(_) => StepCount(None)
    case ViewDistance(_) => ViewDistance(None)
    case Viewable(_) => Viewable(None)
    case SecretWallHint => SecretWallHint
    case AffectsFog => AffectsFog
    case Paywall(_) => Paywall(None)
    case BackgroundColor(_) => BackgroundColor(None)
    case Mystery => Mystery
    case Hidden(_) => Hidden(None)
  }

  /** One default per kind: two components have the same default exactly when
      they are of the same kind, so the default is idempotent and fixes
      exactly the defaults. */
  lemma DefaultComponentKinds(c: Component, c': Component)
    ensures GetDefaultComponent(c) == GetDefaultComponent(c') <==> Kind(c) == Kind(c')
    ensures GetDefaultComponent(GetDefaultComponent(c)) == GetDefaultComponent(c)
    ensures GetDefaultComponent(c) == c <==> IsDefault(c)
  {
    DefaultByKind(c);
    DefaultByKind(c');
    DefaultByKind(GetDefaultComponent(c));
  }

  /** The default component of each kind. */
  function KindDefault(k: nat): Component {
    if k == 0 then Minion(None) else if k == 1 then Wall else if k == 2 then SecretWall(None)
    else if k == 3 then Room else if k == 4 then Door else if k == 5 then PositionC(None)
    else if k == 6 then Render(None) else if k == 7 then BackgroundColor(None)
    else if k == 8 then ZIndex(None) else if k == 9 then Player else if k == 10 then Drop(None)
    else if k == 11 then ItemC(None) else if k == 12 then Fog(None) else if k == 13 then Solid
    else if k == 14 then Dialogue(None) else if k == 15 then DialogueChar
    else if k == 16 then Activated(None) else if k == 17 then Cooldown(None)
    else if k == 18 then StepCount(None) else if k == 19 then AffectsFog
    else if k == 20 then ViewDistance(None) else if k == 21 then Viewable(None)
    else if k == 22 then SecretWallHint else if k == 23 then Paywall(None)
    else if k == 24 then Mystery else Hidden(None)
  }

  /** The default of a component depends on its kind alone, and a default
      component is the default of its kind. */
  lemma DefaultByKind(c: Component)
    ensures GetDefaultComponent(c) == KindDefault(Kind(c))
    ensures IsDefault(c) ==> c == KindDefault(Kind(c))
  { }
}
