/** The game state of the second dungeon game (wungeons2/src/state.rs) and
    the entity-component store inside it: `entitiesMap` holds the entities
    by id, and `componentMap` maps a list of component kinds to the ids of
    the entities that have all of them. `add_entity`
    (wungeons2/src/entity.rs:76-108) registers an entity in that store. */
module GameState {
  import opened Components
  import opened Entities
  import Effects
  import Letters
  import opened Wrappers

  /** The slot `set_component` writes: `entities_map.get_mut(&id).unwrap()`,
      then `component_index[&kind]`, then `components[slot]`; `None` where
      one of those three panics. */
  function SlotOf(em: map<nat, Entity>, id: nat, component: Component): (r: Option<nat>)
    ensures r.Some? <==>
      (id in em && GetDefaultComponent(component) in em[id].componentIndex
       && em[id].componentIndex[GetDefaultComponent(component)] < |em[id].components|)
    ensures r.Some? ==> r.value == em[id].componentIndex[GetDefaultComponent(component)]
  {
    if id !in em then None
    else
      var e := em[id];
      var kind := GetDefaultComponent(component);
      if kind !in e.componentIndex then None
      else if e.componentIndex[kind] < |e.components| then Some(e.componentIndex[kind])
      else None
  }

  /** The ids stored under k, or none when k is not a key. */
  function Lookup(m: map<seq<Component>, set<nat>>, k: seq<Component>): set<nat> {
    if k in m then m[k] else {}
  }

  /** `entity_components` in `add_entity`: the kinds of the entity's
      components. */
  function EntityKinds(e: Entity): set<Component> {
    set d | d in KindSeq(e.components)
  }

  /** The one-element lists of the given kinds. */
  function Singles(kinds: set<Component>): set<seq<Component>> {
    set d | d in kinds :: [d]
  }

  /** The kinds in a list. */
  function SetOf(list: seq<Component>): set<Component> {
    set c | c in list
  }

  /** The store m after `id`, an entity with these kinds, has been listed
      under each of the one-element lists in `singles`, and each list in
      `lists` has been made a key holding the id when the entity has all of
      its kinds. */
  function Listed(m: map<seq<Component>, set<nat>>, id: nat, kinds: set<Component>,
                  singles: set<seq<Component>>, lists: set<seq<Component>>): map<seq<Component>, set<nat>> {
    map k | k in m.Keys + singles + lists ::
      Lookup(m, k) + (if k in singles || (k in lists && SetOf(k) <= kinds) then {id} else {})
  }

  /** The store after `add_entity` registers `id` with these kinds. */
  function Registered(m: map<seq<Component>, set<nat>>, id: nat, kinds: set<Component>, systems: seq<seq<Component>>): map<seq<Component>, set<nat>> {
    Listed(m, id, kinds, Singles(kinds), ListsOf(systems))
  }

  /** The lists in a sequence of lists. */
  function ListsOf(systems: seq<seq<Component>>): set<seq<Component>> {
    set s | s in systems
  }

  /** The lists of a prefix one longer. */
  lemma ListsOfPrefix(systems: seq<seq<Component>>, i: nat)
    requires i < |systems|
    ensures ListsOf(systems[..i + 1]) == ListsOf(systems[..i]) + {systems[i]}
  {
    assert systems[..i + 1] == systems[..i] + [systems[i]];
  }

  /** `if !contains_key(k) { insert(k, {}) }` followed by adding to the set
      under k. */
  function AddUnder(m: map<seq<Component>, set<nat>>, k: seq<Component>, add: set<nat>): map<seq<Component>, set<nat>> {
    var mid := WithKey(m, k);
    mid[k := mid[k] + add]
  }

  /** `if !contains_key(k) { insert(k, {}) }`. */
  function WithKey(m: map<seq<Component>, set<nat>>, k: seq<Component>): map<seq<Component>, set<nat>> {
    if k in m then m else m[k := {}]
  }

  /** Listing the id under one more one-element list. */
  lemma ListSingle(m: map<seq<Component>, set<nat>>, id: nat, kinds: set<Component>,
                   singles: set<seq<Component>>, single: seq<Component>)
    ensures AddUnder(Listed(m, id, kinds, singles, {}), single, {id}) == Listed(m, id, kinds, singles + {single}, {})
  {
    var p := Listed(m, id, kinds, singles, {});
    var q := AddUnder(p, single, {id});
    var r := Listed(m, id, kinds, singles + {single}, {});
    assert q.Keys == r.Keys;
    forall k | k in q
      ensures q[k] == r[k]
    {
    }
  }

  /** Nothing listed yet: the store as it was. */
  lemma ListedNothing(m: map<seq<Component>, set<nat>>, id: nat, kinds: set<Component>)
    ensures Listed(m, id, kinds, {}, {}) == m
  {
    var r := Listed(m, id, kinds, {}, {});
    assert r.Keys == m.Keys;
    forall k | k in m
      ensures r[k] == m[k]
    {
    }
  }

  /** Making one more list a key and listing the id under it, when the
      entity has all of the list's kinds. */
  lemma ListSystemAdd(m: map<seq<Component>, set<nat>>, id: nat, kinds: set<Component>,
                      singles: set<seq<Component>>, lists: set<seq<Component>>, list: seq<Component>)
    requires SetOf(list) <= kinds
    ensures AddUnder(Listed(m, id, kinds, singles, lists), list, {id}) == Listed(m, id, kinds, singles, lists + {list})
  {
    var q := AddUnder(Listed(m, id, kinds, singles, lists), list, {id});
    var r := Listed(m, id, kinds, singles, lists + {list});
    assert q.Keys == r.Keys;
    forall k | k in q
      ensures q[k] == r[k]
    {
    }
  }

  /** Making one more list a key without listing the id, when the entity
      lacks one of the list's kinds. */
  lemma ListSystemKey(m: map<seq<Component>, set<nat>>, id: nat, kinds: set<Component>,
                      singles: set<seq<Component>>, lists: set<seq<Component>>, list: seq<Component>)
    requires !(SetOf(list) <= kinds)
    ensures WithKey(Listed(m, id, kinds, singles, lists), list) == Listed(m, id, kinds, singles, lists + {list})
  {
    var q := WithKey(Listed(m, id, kinds, singles, lists), list);
    var r := Listed(m, id, kinds, singles, lists + {list});
    assert q.Keys == r.Keys;
    forall k | k in q
      ensures q[k] == r[k]
    {
    }
  }

  /** After registration the id is listed under the one-element list of
      each of its kinds. */
  lemma RegisteredKinds(m: map<seq<Component>, set<nat>>, id: nat, kinds: set<Component>, systems: seq<seq<Component>>)
    ensures forall d :: d in kinds ==> [d] in Registered(m, id, kinds, systems) && id in Registered(m, id, kinds, systems)[[d]]
  {
    forall d | d in kinds
      ensures [d] in Registered(m, id, kinds, systems) && id in Registered(m, id, kinds, systems)[[d]]
    {
      assert [d] in Singles(kinds);
    }
  }

  /** After registration every system's list is a key, and the id is listed
      under it exactly when the entity has all of its kinds (or it already
      was). */
  lemma RegisteredSystems(m: map<seq<Component>, set<nat>>, id: nat, kinds: set<Component>, systems: seq<seq<Component>>)
    ensures forall s :: s in systems ==>
      s in Registered(m, id, kinds, systems)
      && (id in Registered(m, id, kinds, systems)[s] <==> SetOf(s) <= kinds || id in Lookup(m, s))
  {
    forall s | s in systems
      ensures s in Registered(m, id, kinds, systems)
      ensures id in Registered(m, id, kinds, systems)[s] <==> SetOf(s) <= kinds || id in Lookup(m, s)
    {
      if s in Singles(kinds) {
        var d :| d in kinds && s == [d];
        assert SetOf(s) == {d};
      }
    }
  }

  /** Registration changes no other id's membership under any key. */
  lemma RegisteredOthers(m: map<seq<Component>, set<nat>>, id: nat, kinds: set<Component>, systems: seq<seq<Component>>)
    ensures forall x, k :: x != id ==> (x in Lookup(Registered(m, id, kinds, systems), k) <==> x in Lookup(m, k))
  {
  }

  /** The fields of the state that the store operations leave alone. */
  datatype Settings = Settings(
    gridSize: Rect, changeEvents: seq<Component>, entityIdCounter: nat, name: string,
    systemComponents: seq<seq<Component>>, gold: nat, fogEnabled: bool, dialogueInput: string,
    showDeck: bool, floor: nat, tilePoints: map<char, nat>)

  /** `State`: the random number generator and the loop durations are not
      modelled, nor the room, hallway and item lists. */
  class State {
    var gridSize: Rect
    var events: seq<Event>
    var changeEvents: seq<Component>
    var entityIdCounter: nat
    var name: string
    var entitiesMap: map<nat, Entity>
    var componentMap: map<seq<Component>, set<nat>>
    var systemComponents: seq<seq<Component>>
    var availableLetters: seq<char>
    var gold: nat
    var fogEnabled: bool
    var dialogueInput: string
    const emptyEntitiesSet: set<nat> := {}
    var showDeck: bool
    var floor: nat
    const mods: Effects.AllModifiers
    var tilePoints: map<char, nat>

    function Rest(): Settings
      reads this
    {
      Settings(gridSize, changeEvents, entityIdCounter, name, systemComponents, gold, fogEnabled,
        dialogueInput, showDeck, floor, tilePoints)
    }

    /** `State::new`: an empty store and event queue, counter 0, no gold, on
        floor 1 with fog on, default modifiers, the starting tile points and,
        through `refresh_tiles`, the starting tiles. */
    constructor (gridSize: Rect, systemComponents: seq<seq<Component>>)
      ensures Rest() == Settings(gridSize, [], 0, "", systemComponents, 0, true, "", false, 1, Letters.StartingTilePoints())
      ensures events == [] && entitiesMap == map[] && componentMap == map[]
      ensures availableLetters == Letters.StartingTiles()
      ensures fresh(mods) && mods.Value() == Effects.NO_MODIFIERS
    {
      this.gridSize := gridSize;
      events := [];
      changeEvents := [];
      entityIdCounter := 0;
      name := "";
      entitiesMap := map[];
      componentMap := map[];
      this.systemComponents := systemComponents;
      availableLetters := [];
      gold := 0;
      fogEnabled := true;
      dialogueInput := "";
      showDeck := false;
      floor := 1;
      mods := new Effects.AllModifiers();
      tilePoints := Letters.StartingTilePoints();
      new;
      RefreshTiles();
    }

    /** `refresh_tiles`: the available letters become the starting tiles. */
    method RefreshTiles()
      modifies this
      ensures availableLetters == Letters.StartingTiles()
      ensures Rest() == old(Rest()) && events == old(events)
      ensures entitiesMap == old(entitiesMap) && componentMap == old(componentMap)
    {
      availableLetters := Letters.StartingTiles();
    }

    /** `get_entities`: the ids stored under the list, or the empty set when
        the list is not a key. */
    function GetEntities(components: seq<Component>): (s: set<nat>)
      reads this
      ensures s == Lookup(componentMap, components)
    {
      if components in componentMap then componentMap[components] else emptyEntitiesSet
    }

    /** `remove_entity`: the id leaves every set of the store and the entity
        map; the keys and every other id stay. */
    method RemoveEntity(id: nat)
      modifies this
      ensures componentMap.Keys == old(componentMap).Keys
      ensures forall k :: k in componentMap ==> componentMap[k] == old(componentMap)[k] - {id}
      ensures entitiesMap == old(entitiesMap) - {id}
      ensures Rest() == old(Rest()) && events == old(events) && availableLetters == old(availableLetters)
    {
      var keys := componentMap.Keys;
      while keys != {}
        invariant keys <= componentMap.Keys == old(componentMap).Keys
        invariant forall k :: k in componentMap ==>
          componentMap[k] == if k in keys then old(componentMap)[k] else old(componentMap)[k] - {id}
        invariant entitiesMap == old(entitiesMap)
        invariant Rest() == old(Rest()) && events == old(events) && availableLetters == old(availableLetters)
        decreases keys
      {
        var k :| k in keys;
        componentMap := componentMap[k := componentMap[k] - {id}];
        keys := keys - {k};
      }
      entitiesMap := entitiesMap - {id};
    }

    /** `set_component`: overwrites the slot of the component's kind in the
        entity, and queues one `ComponentChanged` event exactly when the slot
        held something else. The source unwraps the entity and indexes the
        kind and the slot without a check: `ok` is false exactly when one of
        those panics, and then nothing has changed. */
    method SetComponent(id: nat, component: Component) returns (ok: bool)
      modifies this
      ensures ok <==> SlotOf(old(entitiesMap), id, component).Some?
      ensures ok ==> var e := old(entitiesMap)[id];
        var slot := SlotOf(old(entitiesMap), id, component).value;
        entitiesMap == old(entitiesMap)[id := e.(components := e.components[slot := component])]
        && events == old(events) + (if e.components[slot] != component then [ComponentChanged(component)] else [])
      ensures !ok ==> entitiesMap == old(entitiesMap) && events == old(events)
      ensures componentMap == old(componentMap)
      ensures Rest() == old(Rest()) && availableLetters == old(availableLetters)
    {
      var slot := SlotOf(entitiesMap, id, component);
      if slot.None? {
        return false;
      }
      var e := entitiesMap[id];
      if e.components[slot.value] != component {
        events := events + [ComponentChanged(component)];
      }
      entitiesMap := entitiesMap[id := e.(components := e.components[slot.value := component])];
      ok := true;
    }

    /** `remove_all_by_component`: nothing when the one-element list of the
        component is not a key; otherwise every entity listed under it is
        removed as by `remove_entity`. */
    method RemoveAllByComponent(component: Component)
      modifies this
      ensures [component] !in old(componentMap) ==>
        componentMap == old(componentMap) && entitiesMap == old(entitiesMap)
      ensures [component] in old(componentMap) ==>
        var gone := old(componentMap)[[component]];
        componentMap.Keys == old(componentMap).Keys
        && (forall k :: k in componentMap ==> componentMap[k] == old(componentMap)[k] - gone)
        && entitiesMap == old(entitiesMap) - gone
      ensures Rest() == old(Rest()) && events == old(events) && availableLetters == old(availableLetters)
    {
      var key := [component];
      if key !in componentMap {
        return;
      }
      var entities := componentMap[key];
      ghost var gone := entities;
      while entities != {}
        invariant entities <= gone
        invariant componentMap.Keys == old(componentMap).Keys
        invariant forall k :: k in componentMap ==> componentMap[k] == old(componentMap)[k] - (gone - entities)
        invariant entitiesMap == old(entitiesMap) - (gone - entities)
        invariant Rest() == old(Rest()) && events == old(events) && availableLetters == old(availableLetters)
        decreases entities
      {
        var e :| e in entities;
        RemoveEntity(e);
        entities := entities - {e};
      }
    }

    /** `apply_modifiers`: adds the given modifiers into the state's own, as
        `AllModifiers::add` does. */
    method ApplyModifiers(modifiers: Effects.AllModifiers)
      requires modifiers != mods
      modifies mods, modifiers
      ensures mods.Value() == Effects.AddedModifiers(old(mods.Value()), old(modifiers.Value()))
      ensures modifiers.Value() == old(modifiers.Value()).(mults := [])
    {
      mods.Add(modifiers);
    }
  }

  /** Taking one kind out of a set takes its one-element list out of the
      lists. */
  lemma SinglesRemove(kinds: set<Component>, c: Component)
    requires c in kinds
    ensures Singles(kinds - {c}) + {[c]} == Singles(kinds)
  {
  }

  /** The first loop of `add_entity`: lists the id under the one-element
      list of each of the entity's kinds, creating the key when missing. */
  method ListUnderKinds(m: map<seq<Component>, set<nat>>, id: nat, kinds: set<Component>)
    returns (componentMap: map<seq<Component>, set<nat>>)
    ensures componentMap == Listed(m, id, kinds, Singles(kinds), {})
  {
    componentMap := m;
    var todo := kinds;
    ghost var singles: set<seq<Component>> := {};
    ListedNothing(m, id, kinds);
    while todo != {}
      invariant todo <= kinds
      invariant singles + Singles(todo) == Singles(kinds)
      invariant componentMap == Listed(m, id, kinds, singles, {})
      decreases todo
    {
      var c :| c in todo;
      var single := [c];
      ListSingle(m, id, kinds, singles, single);
      SinglesRemove(todo, c);
      ghost var before := componentMap;
      if single !in componentMap {
        componentMap := componentMap[single := {}];
      }
      componentMap := componentMap[single := componentMap[single] + {id}];
      assert componentMap == AddUnder(before, single, {id});
      todo := todo - {c};
      singles := singles + {single};
    }
    assert Singles(todo) == {};
  }

  /** The second loop of `add_entity`: makes every system's list a key and
      lists the id under it when the entity has all of the list's kinds. */
  method ListUnderSystems(m: map<seq<Component>, set<nat>>, id: nat, kinds: set<Component>, systems: seq<seq<Component>>)
    returns (componentMap: map<seq<Component>, set<nat>>)
    ensures componentMap == Listed(m, id, kinds, {}, ListsOf(systems))
  {
    componentMap := m;
    ghost var lists: set<seq<Component>> := {};
    ListedNothing(m, id, kinds);
    var i := 0;
    while i < |systems|
      invariant i <= |systems|
      invariant lists == ListsOf(systems[..i])
      invariant componentMap == Listed(m, id, kinds, {}, lists)
    {
      var required := systems[i];
      ListsOfPrefix(systems, i);
      ghost var before := componentMap;
      if required !in componentMap {
        componentMap := componentMap[required := {}];
      }
      assert componentMap == WithKey(before, required);
      if SetOf(required) <= kinds {
        componentMap := componentMap[required := componentMap[required] + {id}];
        ListSystemAdd(m, id, kinds, {}, lists, required);
      } else {
        ListSystemKey(m, id, kinds, {}, lists, required);
      }
      lists := lists + {required};
      i := i + 1;
    }
    assert systems[..i] == systems;
  }

  /** The two loops together register the id. */
  lemma ListedCompose(m: map<seq<Component>, set<nat>>, id: nat, kinds: set<Component>, systems: seq<seq<Component>>)
    ensures Listed(Listed(m, id, kinds, Singles(kinds), {}), id, kinds, {}, ListsOf(systems)) == Registered(m, id, kinds, systems)
  {
    var p := Listed(m, id, kinds, Singles(kinds), {});
    var q := Listed(p, id, kinds, {}, ListsOf(systems));
    var r := Registered(m, id, kinds, systems);
    assert q.Keys == r.Keys;
    forall k | k in q
      ensures q[k] == r[k]
    {
    }
  }

  /** `add_entity`: lists the entity's id under the one-element list of each
      of its kinds, makes every system's list a key and lists the id under
      it when the entity has all of its kinds, and stores the entity under
      its id. */
  method AddEntity(entity: Entity, state: State)
    modifies state
    ensures state.componentMap == Registered(old(state.componentMap), entity.id, EntityKinds(entity), state.systemComponents)
    ensures state.entitiesMap == old(state.entitiesMap)[entity.id := entity]
    ensures state.Rest() == old(state.Rest()) && state.events == old(state.events)
    ensures state.availableLetters == old(state.availableLetters)
  {
    var entityComponents := EntityKinds(entity);
    var afterKinds := ListUnderKinds(state.componentMap, entity.id, entityComponents);
    var afterSystems := ListUnderSystems(afterKinds, entity.id, entityComponents, state.systemComponents);
    ListedCompose(state.componentMap, entity.id, entityComponents, state.systemComponents);
    state.componentMap := afterSystems;
    state.entitiesMap := state.entitiesMap[entity.id := entity];
  }
}
