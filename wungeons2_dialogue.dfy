/** The `dialogue` system of wungeons2/src/dialogue.rs:10-116: of the
    entities listed under the given component list, the one with the lowest
    z index is shown, unless it is already activated. Showing it creates one
    entity per laid-out character cell (see `DialogueLayout`) and marks the
    dialogue activated. */
module DialogueSystem {
  import opened Wrappers
  import opened Components
  import opened Entities
  import opened GameState
  import opened DialogueLayout

  /** The components of a created cell: its position, the dialogue's z
      index, its `Render` component and the `DialogueChar` marker. */
  function GlyphComponents(pos: Position, z: int, g: Glyph): seq<Component> {
    [PositionC(Some(Position(pos.x + g.dx, pos.y + g.dy))), ZIndex(Some(z)), g.render, DialogueChar]
  }

  /** The entity `new_entity` makes for a cell. */
  function GlyphEntity(id: nat, pos: Position, z: int, g: Glyph): Entity {
    Entity(id, GlyphComponents(pos, z, g), ComponentIndex(GlyphComponents(pos, z, g)))
  }

  /** The entities of the cells, with ids from `counter` on. */
  function Cells(counter: nat, pos: Position, z: int, glyphs: seq<Glyph>): (cs: seq<Entity>)
    ensures |cs| == |glyphs|
    ensures forall k :: 0 <= k < |glyphs| ==> cs[k] == GlyphEntity(counter + k, pos, z, glyphs[k])
  {
    seq(|glyphs|, k requires 0 <= k < |glyphs| => GlyphEntity(counter + k, pos, z, glyphs[k]))
  }

  /** A map after the values were stored under consecutive keys from
      `counter` on. */
  function Placed<V>(em: map<nat, V>, counter: nat, vs: seq<V>): map<nat, V>
    decreases |vs|
  {
    if vs == [] then em
    else
      var n := |vs| - 1;
      Placed(em, counter, vs[..n])[counter + n := vs[n]]
  }

  /** The component index after the entities were registered one after the
      other. */
  function RegisteredAll(cm: map<seq<Component>, set<nat>>, es: seq<Entity>, systems: seq<seq<Component>>): map<seq<Component>, set<nat>>
    decreases |es|
  {
    if es == [] then cm
    else
      var n := |es| - 1;
      Registered(RegisteredAll(cm, es[..n], systems), es[n].id, EntityKinds(es[n]), systems)
  }

  /** The values are stored under consecutive keys from `counter` on, and
      every other key keeps its value. */
  lemma {:induction false} PlacedLookup<V>(em: map<nat, V>, counter: nat, vs: seq<V>)
    ensures forall id :: id in Placed(em, counter, vs) <==> id in em || counter <= id < counter + |vs|
    ensures forall id :: counter <= id < counter + |vs| ==> Placed(em, counter, vs)[id] == vs[id - counter]
    ensures forall id :: id in em && !(counter <= id < counter + |vs|) ==> Placed(em, counter, vs)[id] == em[id]
    decreases |vs|
  {
    if vs != [] {
      var n := |vs| - 1;
      PlacedLookup(em, counter, vs[..n]);
    }
  }

  /** The stored value of a key below `counter` is kept. */
  lemma {:induction false} PlacedKeeps<V>(em: map<nat, V>, counter: nat, vs: seq<V>, id: nat)
    requires id in em && id < counter
    ensures id in Placed(em, counter, vs) && Placed(em, counter, vs)[id] == em[id]
    decreases |vs|
  {
    if vs != [] {
      PlacedKeeps(em, counter, vs[..|vs| - 1], id);
    }
  }

  /** The cells of one more glyph. */
  lemma CellsSnoc(counter: nat, pos: Position, z: int, glyphs: seq<Glyph>, k: nat)
    requires k < |glyphs|
    ensures Cells(counter, pos, z, glyphs[..k + 1])
      == Cells(counter, pos, z, glyphs[..k]) + [GlyphEntity(counter + k, pos, z, glyphs[k])]
  {
    var a := Cells(counter, pos, z, glyphs[..k + 1]);
    var b := Cells(counter, pos, z, glyphs[..k]) + [GlyphEntity(counter + k, pos, z, glyphs[k])];
    assert forall j :: 0 <= j < |a| ==> a[j] == b[j];
  }

  /** Registration only adds ids. */
  lemma RegisteredGrows(m: map<seq<Component>, set<nat>>, id: nat, kinds: set<Component>, systems: seq<seq<Component>>)
    ensures var r := Registered(m, id, kinds, systems);
      m.Keys <= r.Keys && forall k :: Lookup(m, k) <= Lookup(r, k)
  {
  }

  /** Every registered entity is listed under the one-element list of each
      of its kinds, and no other id changes its listings. */
  lemma {:induction false} RegisteredAllKinds(cm: map<seq<Component>, set<nat>>, es: seq<Entity>, systems: seq<seq<Component>>)
    ensures forall j, d :: 0 <= j < |es| && d in EntityKinds(es[j]) ==> es[j].id in Lookup(RegisteredAll(cm, es, systems), [d])
    ensures forall x, k :: (forall j :: 0 <= j < |es| ==> es[j].id != x) ==>
      (x in Lookup(RegisteredAll(cm, es, systems), k) <==> x in Lookup(cm, k))
    decreases |es|
  {
    if es != [] {
      var n := |es| - 1;
      var before := RegisteredAll(cm, es[..n], systems);
      RegisteredAllKinds(cm, es[..n], systems);
      RegisteredGrows(before, es[n].id, EntityKinds(es[n]), systems);
      RegisteredKinds(before, es[n].id, EntityKinds(es[n]), systems);
      RegisteredOthers(before, es[n].id, EntityKinds(es[n]), systems);
      var after := RegisteredAll(cm, es, systems);
      assert after == Registered(before, es[n].id, EntityKinds(es[n]), systems);
      forall j, d | 0 <= j < |es| && d in EntityKinds(es[j])
        ensures es[j].id in Lookup(after, [d])
      {
        if j < n {
          assert es[..n][j] == es[j];
          assert es[j].id in Lookup(before, [d]);
        }
      }
      forall x, k | forall j :: 0 <= j < |es| ==> es[j].id != x
        ensures x in Lookup(after, k) <==> x in Lookup(cm, k)
      {
        assert forall j :: 0 <= j < n ==> es[..n][j].id != x;
        assert es[n].id != x;
      }
    }
  }

  /** A created cell is a `DialogueChar` entity with the dialogue's z index. */
  lemma GlyphKinds(id: nat, pos: Position, z: int, g: Glyph)
    ensures DialogueChar in EntityKinds(GlyphEntity(id, pos, z, g))
    ensures ZIndex(None) in EntityKinds(GlyphEntity(id, pos, z, g))
  {
    var e := GlyphEntity(id, pos, z, g);
    assert KindSeq(e.components)[3] == DialogueChar;
    assert KindSeq(e.components)[1] == ZIndex(None);
  }

  /** `get_component!` of a z index, with the payload unwrapped: `None`
      where the source panics (no entity, no `ZIndex`, or `ZIndex(None)`). */
  function ZOf(em: map<nat, Entity>, id: nat): Option<int> {
    if id in em && IndexInRange(em[id]) then
      match GetComponent(em[id], ZIndex(None))
      case Some(ZIndex(Some(z))) => Some(z)
      case _ => None
    else None
  }

  /** Every listed entity has a z index. */
  predicate AllZ(em: map<nat, Entity>, ids: set<nat>) {
    forall j :: j in ids ==> ZOf(em, j).Some?
  }

  /** `e` is first in ascending z order among `ids`. */
  predicate Lowest(em: map<nat, Entity>, ids: set<nat>, e: nat) {
    AllZ(em, ids) && e in ids && forall j :: j in ids ==> ZOf(em, e).value <= ZOf(em, j).value
  }

  /** Among non-empty keys of a map to integers, one has the least value. */
  lemma {:induction false} LeastExists(zs: map<nat, int>, ks: set<nat>)
    requires ks != {} && ks <= zs.Keys
    ensures exists e :: e in ks && forall j :: j in ks ==> zs[e] <= zs[j]
    decreases ks
  {
    var j :| j in ks;
    if ks - {j} == {} {
      assert ks == {j};
    } else {
      LeastExists(zs, ks - {j});
      var e :| e in ks - {j} && forall i :: i in ks - {j} ==> zs[e] <= zs[i];
      if zs[j] <= zs[e] {
        assert forall i :: i in ks ==> zs[j] <= zs[i];
      } else {
        assert forall i :: i in ks ==> zs[e] <= zs[i];
      }
    }
  }

  /** The z indexes of the listed entities. */
  function ZMap(em: map<nat, Entity>, ids: set<nat>): (zs: map<nat, int>)
    requires AllZ(em, ids)
    ensures zs.Keys == ids && forall j :: j in ids ==> Some(zs[j]) == ZOf(em, j)
  {
    map j | j in ids :: ZOf(em, j).value
  }

  /** A key of least value among non-empty keys. */
  method Least(zs: map<nat, int>, ks: set<nat>) returns (e: nat)
    requires ks != {} && ks <= zs.Keys
    ensures e in ks && forall j :: j in ks ==> zs[e] <= zs[j]
  {
    LeastExists(zs, ks);
    e :| e in ks && forall j :: j in ks ==> zs[e] <= zs[j];
  }

  /** The unwrapped `Activated` payload. */
  function ActivatedOf(e: Entity): Option<bool>
    requires IndexInRange(e)
  {
    match GetComponent(e, Activated(None))
    case Some(Activated(Some(b))) => Some(b)
    case _ => None
  }

  /** The unwrapped `Dialogue` payload: the text lines and the options. */
  function DialogueOf(e: Entity): Option<(seq<DialogueLine>, seq<(string, Event)>)>
    requires IndexInRange(e)
  {
    match GetComponent(e, Dialogue(None))
    case Some(Dialogue(Some(d))) => Some(d)
    case _ => None
  }

  /** The unwrapped `Position` payload. */
  function PositionOf(e: Entity): Option<Position>
    requires IndexInRange(e)
  {
    match GetComponent(e, PositionC(None))
    case Some(PositionC(Some(p))) => Some(p)
    case _ => None
  }

  /** Whether showing the entity panics: it has no `Activated` payload, or
      it is not activated and lacks its dialogue or position, or its text
      has a colour pair the source does not handle. */
  predicate ShowFails(e: Entity)
    requires IndexInRange(e)
  {
    ActivatedOf(e).None?
    || (ActivatedOf(e) == Some(false)
        && (DialogueOf(e).None? || PositionOf(e).None?
            || Layout(DialogueOf(e).value.0, DialogueOf(e).value.1).None?))
  }

  /** The entity with its `Activated` slot set to `Activated(Some(true))`. */
  function MarkActivated(e: Entity): (r: Entity)
    requires IndexInRange(e) && ActivatedOf(e).Some?
    ensures IndexInRange(r) && ActivatedOf(r) == Some(true)
    ensures r.id == e.id && r.componentIndex == e.componentIndex && |r.components| == |e.components|
    ensures forall k :: 0 <= k < |e.components| && k != e.componentIndex[Activated(None)] ==> r.components[k] == e.components[k]
  {
    var slot := e.componentIndex[GetDefaultComponent(Activated(Some(true)))];
    e.(components := e.components[slot := Activated(Some(true))])
  }

  /** The parts of the state that `dialogue` changes or reads. */
  datatype Store = Store(entitiesMap: map<nat, Entity>, componentMap: map<seq<Component>, set<nat>>,
                         events: seq<Event>, rest: Settings)

  function Snap(state: State): Store
    reads state
  {
    Store(state.entitiesMap, state.componentMap, state.events, state.Rest())
  }

  /** The store after the entities were created from the counter on and
      registered one after the other. */
  function Placing(s: Store, cells: seq<Entity>): Store {
    Store(Placed(s.entitiesMap, s.rest.entityIdCounter, cells),
          RegisteredAll(s.componentMap, cells, s.rest.systemComponents),
          s.events,
          s.rest.(entityIdCounter := s.rest.entityIdCounter + |cells|))
  }

  /** One more entity, with the next id: stored under it and registered. */
  lemma PlacingStep(s: Store, cells: seq<Entity>, e: Entity)
    requires e.id == s.rest.entityIdCounter + |cells|
    ensures var p := Placing(s, cells);
      Placing(s, cells + [e]) == Store(p.entitiesMap[e.id := e],
        Registered(p.componentMap, e.id, EntityKinds(e), s.rest.systemComponents),
        s.events, p.rest.(entityIdCounter := e.id + 1))
  {
    assert (cells + [e])[..|cells|] == cells;
  }

  /** Creates and registers the entities of the cells, one after the other,
      with ids from the counter on. */
  method PlaceGlyphs(state: State, pos: Position, z: int, glyphs: seq<Glyph>)
    modifies state
    ensures Snap(state) == Placing(old(Snap(state)), Cells(old(state.entityIdCounter), pos, z, glyphs))
    ensures state.availableLetters == old(state.availableLetters)
  {
    ghost var s := Snap(state);
    ghost var counter := state.entityIdCounter;
    ghost var cells: seq<Entity> := [];
    var k := 0;
    while k < |glyphs|
      invariant k <= |glyphs| && cells == Cells(counter, pos, z, glyphs[..k])
      invariant Snap(state) == Placing(s, cells)
      invariant state.availableLetters == old(state.availableLetters)
    {
      var e, next := NewEntity(state.entityIdCounter, GlyphComponents(pos, z, glyphs[k]));
      assert e == GlyphEntity(counter + k, pos, z, glyphs[k]);
      PlacingStep(s, cells, e);
      CellsSnoc(counter, pos, z, glyphs, k);
      state.entityIdCounter := next;
      AddEntity(e, state);
      cells := cells + [e];
      k := k + 1;
    }
    assert glyphs[..k] == glyphs;
  }

  /** The store after the cells of `glyphs` were created at `pos` with z
      index z, with entity e marked activated and the change queued as an
      event. */
  function Shown(s: Store, e: nat, pos: Position, z: int, glyphs: seq<Glyph>): Store
    requires e in s.entitiesMap && IndexInRange(s.entitiesMap[e]) && ActivatedOf(s.entitiesMap[e]).Some?
  {
    var p := Placing(s, Cells(s.rest.entityIdCounter, pos, z, glyphs));
    p.(entitiesMap := p.entitiesMap[e := MarkActivated(s.entitiesMap[e])],
       events := p.events + [ComponentChanged(Activated(Some(true)))])
  }

  /** The store after showing entity e with z index z: unchanged when it is
      already activated; otherwise with one entity per cell of its layout,
      created at its position, and with e marked activated. */
  function AfterShow(s: Store, e: nat, z: int): Store
    requires e in s.entitiesMap && IndexInRange(s.entitiesMap[e]) && !ShowFails(s.entitiesMap[e])
  {
    var entity := s.entitiesMap[e];
    if ActivatedOf(entity) == Some(true) then s
    else
      var d := DialogueOf(entity).value;
      Shown(s, e, PositionOf(entity).value, z, Layout(d.0, d.1).value)
  }

  /** Placing the cells stores each under its id, from the counter on, and
      keeps every earlier entity. */
  lemma PlacingEntities(s: Store, pos: Position, z: int, glyphs: seq<Glyph>)
    ensures var counter := s.rest.entityIdCounter;
      var p := Placing(s, Cells(counter, pos, z, glyphs));
      (forall id :: id in p.entitiesMap <==> id in s.entitiesMap || counter <= id < counter + |glyphs|)
      && (forall k :: 0 <= k < |glyphs| ==> p.entitiesMap[counter + k].components == GlyphComponents(pos, z, glyphs[k]))
      && (forall id :: id in s.entitiesMap && id < counter ==> p.entitiesMap[id] == s.entitiesMap[id])
      && p.events == s.events
  {
    var counter := s.rest.entityIdCounter;
    var cells := Cells(counter, pos, z, glyphs);
    var m := Placed(s.entitiesMap, counter, cells);
    PlacedLookup(s.entitiesMap, counter, cells);
    assert Placing(s, cells).entitiesMap == m;
    forall k | 0 <= k < |glyphs|
      ensures m[counter + k].components == GlyphComponents(pos, z, glyphs[k])
    {
      assert m[counter + k] == cells[k] == GlyphEntity(counter + k, pos, z, glyphs[k]);
    }
  }

  /** Placing the cells lists each under `[DialogueChar]` and changes no
      listing of an id below the counter. */
  lemma PlacingListings(s: Store, pos: Position, z: int, glyphs: seq<Glyph>)
    ensures var counter := s.rest.entityIdCounter;
      var p := Placing(s, Cells(counter, pos, z, glyphs));
      (forall id :: counter <= id < counter + |glyphs| ==> id in Lookup(p.componentMap, [DialogueChar]))
      && (forall x, key :: x < counter ==> (x in Lookup(p.componentMap, key) <==> x in Lookup(s.componentMap, key)))
  {
    var counter := s.rest.entityIdCounter;
    var cells := Cells(counter, pos, z, glyphs);
    assert Placing(s, cells).componentMap == RegisteredAll(s.componentMap, cells, s.rest.systemComponents);
    CellsListed(s.componentMap, s.rest.systemComponents, counter, pos, z, glyphs);
    CellsKeepListings(s.componentMap, s.rest.systemComponents, counter, pos, z, glyphs);
  }

  /** Each registered cell is listed under `[DialogueChar]`. */
  lemma CellsListed(cm: map<seq<Component>, set<nat>>, systems: seq<seq<Component>>,
                    counter: nat, pos: Position, z: int, glyphs: seq<Glyph>)
    ensures forall id :: counter <= id < counter + |glyphs| ==>
      id in Lookup(RegisteredAll(cm, Cells(counter, pos, z, glyphs), systems), [DialogueChar])
  {
    var cells := Cells(counter, pos, z, glyphs);
    RegisteredAllKinds(cm, cells, systems);
    forall id | counter <= id < counter + |glyphs|
      ensures id in Lookup(RegisteredAll(cm, cells, systems), [DialogueChar])
    {
      var k := id - counter;
      GlyphKinds(id, pos, z, glyphs[k]);
      assert cells[k].id == id && DialogueChar in EntityKinds(cells[k]);
    }
  }

  /** Registering the cells changes no listing of an id below the counter. */
  lemma CellsKeepListings(cm: map<seq<Component>, set<nat>>, systems: seq<seq<Component>>,
                          counter: nat, pos: Position, z: int, glyphs: seq<Glyph>)
    ensures forall x, key :: x < counter ==>
      (x in Lookup(RegisteredAll(cm, Cells(counter, pos, z, glyphs), systems), key) <==> x in Lookup(cm, key))
  {
    var cells := Cells(counter, pos, z, glyphs);
    RegisteredAllKinds(cm, cells, systems);
    forall x, key | x < counter
      ensures x in Lookup(RegisteredAll(cm, cells, systems), key) <==> x in Lookup(cm, key)
    {
      assert forall j :: 0 <= j < |cells| ==> cells[j].id != x;
    }
  }

  /** What showing does: the shown entity ends activated; every cell of the
      layout becomes an entity, under the ids from the counter on, with its
      position, the z index and the `DialogueChar` marker, listed under
      `[DialogueChar]`; every other entity and every other id's listings
      stay as they were. */
  lemma ShowEffects(s: Store, e: nat, pos: Position, z: int, glyphs: seq<Glyph>)
    requires forall id :: id in s.entitiesMap ==> id < s.rest.entityIdCounter
    requires e in s.entitiesMap
    requires IndexInRange(s.entitiesMap[e]) && ActivatedOf(s.entitiesMap[e]).Some?
    ensures var counter := s.rest.entityIdCounter;
      var r := Shown(s, e, pos, z, glyphs);
      r.entitiesMap[e] == MarkActivated(s.entitiesMap[e]) && ActivatedOf(r.entitiesMap[e]) == Some(true)
      && (forall id :: id in r.entitiesMap <==> id in s.entitiesMap || counter <= id < counter + |glyphs|)
      && (forall k :: 0 <= k < |glyphs| ==> r.entitiesMap[counter + k].components == GlyphComponents(pos, z, glyphs[k]))
      && (forall id :: counter <= id < counter + |glyphs| ==> id in Lookup(r.componentMap, [DialogueChar]))
      && (forall id :: id in s.entitiesMap && id != e ==> r.entitiesMap[id] == s.entitiesMap[id])
      && (forall x, key :: x < counter ==> (x in Lookup(r.componentMap, key) <==> x in Lookup(s.componentMap, key)))
      && r.events == s.events + [ComponentChanged(Activated(Some(true)))]
  {
    PlacingEntities(s, pos, z, glyphs);
    PlacingListings(s, pos, z, glyphs);
  }

  /** The part of `dialogue` for the entity first in z order. `ok` is false
      exactly where the source panics. */
  method Show(state: State, e: nat, z: int) returns (ok: bool)
    requires e in state.entitiesMap && e < state.entityIdCounter && IndexInRange(state.entitiesMap[e])
    modifies state
    ensures ok <==> !ShowFails(old(state.entitiesMap)[e])
    ensures ok ==> Snap(state) == AfterShow(old(Snap(state)), e, z)
  {
    var entity := state.entitiesMap[e];
    var activated := ActivatedOf(entity);
    if activated.None? {
      return false;
    }
    if activated.value {
      return true;
    }
    var dialogue := DialogueOf(entity);
    var pos := PositionOf(entity);
    if dialogue.None? || pos.None? {
      return false;
    }
    var glyphs := LayOut(dialogue.value.0, dialogue.value.1);
    if glyphs.None? {
      return false;
    }
    ghost var counter := state.entityIdCounter;
    ghost var em := state.entitiesMap;
    PlaceGlyphs(state, pos.value, z, glyphs.value);
    PlacedKeeps(em, counter, Cells(counter, pos.value, z, glyphs.value), e);
    ok := state.SetComponent(e, Activated(Some(true)));
  }

  /** The ids with their z indexes, sorted by z, and the first taken: `ok`
      is false when some listed entity has no z index; otherwise `chosen` is
      first in ascending z order, or `None` when nothing is listed. */
  method FirstByZ(em: map<nat, Entity>, ids: set<nat>) returns (ok: bool, chosen: Option<nat>)
    ensures ok <==> AllZ(em, ids)
    ensures ok ==> (chosen.None? <==> ids == {})
    ensures chosen.Some? ==> ok && Lowest(em, ids, chosen.value)
  {
    if !(forall j :: j in ids ==> ZOf(em, j).Some?) {
      return false, None;
    }
    if ids == {} {
      return true, None;
    }
    var e := Least(ZMap(em, ids), ids);
    return true, Some(e);
  }

  /** `dialogue`: when every entity listed under `components` has a z
      index, the one first in ascending z order is `chosen` and is shown as
      `AfterShow` says. `ok` is false exactly where the source panics. The
      counter must be above every stored id, as `new_entity` keeps it. */
  method ShowDialogue(state: State, components: seq<Component>) returns (ok: bool, chosen: Option<nat>)
    requires forall id :: id in state.entitiesMap ==> id < state.entityIdCounter
    modifies state
    ensures var ids := old(state.GetEntities(components));
      !AllZ(old(state.entitiesMap), ids) ==> !ok
    ensures var ids := old(state.GetEntities(components));
      ok && chosen.None? ==> ids == {} && Snap(state) == old(Snap(state))
    ensures var ids := old(state.GetEntities(components));
      chosen.Some? ==> (Lowest(old(state.entitiesMap), ids, chosen.value)
        && (ok <==> !ShowFails(old(state.entitiesMap)[chosen.value])))
    ensures ok && chosen.Some? ==>
      Snap(state) == AfterShow(old(Snap(state)), chosen.value, ZOf(old(state.entitiesMap), chosen.value).value)
  {
    var ids := state.GetEntities(components);
    ok, chosen := FirstByZ(state.entitiesMap, ids);
    if !ok || chosen.None? {
      return ok, chosen;
    }
    ok := Show(state, chosen.value, ZOf(state.entitiesMap, chosen.value).value);
  }
}
