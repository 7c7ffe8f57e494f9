/** Entities of the first dungeon game (wungeons/src/entity.rs): an id and
    a set of components. `add_entity` takes the entity store and the
    component index by reference; here it takes them as values and returns
    their new values. The index maps each system's list of required
    component kinds to the ids of the entities that have all of them. */
module Wungeons1Entity {
  import opened Wungeons1Components

  datatype Entity = Entity(id: nat, components: set<Component>)

  /** `new_entity`: takes the counter's value as the id and returns the
      counter incremented by one; the components become a set, so a
      component given twice is kept once. */
  method NewEntity(entityIdCounter: nat, components: seq<Component>) returns (e: Entity, next: nat)
    ensures e.id == entityIdCounter && next == entityIdCounter + 1
    ensures forall c :: c in e.components <==> c in components
    ensures |e.components| <= |components|
  {
    var id := entityIdCounter;
    next := entityIdCounter + 1;
    e := Entity(id, SetOf(components));
    SetOfSize(components);
  }

  /** The components in a list. */
  function SetOf(list: seq<Component>): set<Component> {
    set c | c in list
  }

  /** A list has at least as many entries as distinct entries. */
  lemma {:induction false} SetOfSize(list: seq<Component>)
    ensures |SetOf(list)| <= |list|
  {
    if list != [] {
      SetOfSize(list[1..]);
      assert SetOf(list) == SetOf(list[1..]) + {list[0]};
    }
  }

  /** `entity_components` in `add_entity`: the kinds of the entity's
      components. */
  function EntityKinds(e: Entity): set<Component> {
    set c | c in e.components :: GetDefaultComponent(c)
  }

  /** The ids stored under k, or none when k is not a key. */
  function Lookup(m: map<seq<Component>, set<nat>>, k: seq<Component>): set<nat> {
    if k in m then m[k] else {}
  }

  /** The lists in a sequence of lists. */
  function ListsOf(systems: seq<seq<Component>>): set<seq<Component>> {
    set s | s in systems
  }

  /** The index m after each list in `lists` has been made a key, holding
      `id` when an entity with these kinds has all of the list's kinds. */
  function Listed(m: map<seq<Component>, set<nat>>, id: nat, kinds: set<Component>,
                  lists: set<seq<Component>>): map<seq<Component>, set<nat>> {
    map k | k in m.Keys + lists ::
      Lookup(m, k) + (if k in lists && SetOf(k) <= kinds then {id} else {})
  }

  /** Nothing listed yet: the index as it was. */
  lemma ListedNothing(m: map<seq<Component>, set<nat>>, id: nat, kinds: set<Component>)
    ensures Listed(m, id, kinds, {}) == m
  {
    var r := Listed(m, id, kinds, {});
    assert r.Keys == m.Keys;
    forall k | k in m
      ensures r[k] == m[k]
    {
    }
  }

  /** `if !contains_key(k) { insert(k, {}) }`. */
  function WithKey(m: map<seq<Component>, set<nat>>, k: seq<Component>): map<seq<Component>, set<nat>> {
    if k in m then m else m[k := {}]
  }

  /** One more list made a key, with the id listed under it when the entity
      has all of its kinds. */
  lemma ListSystemAdd(m: map<seq<Component>, set<nat>>, id: nat, kinds: set<Component>,
                      lists: set<seq<Component>>, list: seq<Component>)
    requires SetOf(list) <= kinds
    ensures var mid := WithKey(Listed(m, id, kinds, lists), list);
      mid[list := mid[list] + {id}] == Listed(m, id, kinds, lists + {list})
  {
    var mid := WithKey(Listed(m, id, kinds, lists), list);
    var q := mid[list := mid[list] + {id}];
    var r := Listed(m, id, kinds, lists + {list});
    assert q.Keys == r.Keys;
    forall k | k in q
      ensures q[k] == r[k]
    {
    }
  }

  /** One more list made a key without listing the id, when the entity lacks
      one of its kinds. */
  lemma ListSystemKey(m: map<seq<Component>, set<nat>>, id: nat, kinds: set<Component>,
                      lists: set<seq<Component>>, list: seq<Component>)
    requires !(SetOf(list) <= kinds)
    ensures WithKey(Listed(m, id, kinds, lists), list) == Listed(m, id, kinds, lists + {list})
  {
    var q := WithKey(Listed(m, id, kinds, lists), list);
    var r := Listed(m, id, kinds, lists + {list});
    assert q.Keys == r.Keys;
    forall k | k in q
      ensures q[k] == r[k]
    {
    }
  }

  /** The lists of a prefix one longer. */
  lemma ListsOfPrefix(systems: seq<seq<Component>>, i: nat)
    requires i < |systems|
    ensures ListsOf(systems[..i + 1]) == ListsOf(systems[..i]) + {systems[i]}
  {
    assert systems[..i + 1] == systems[..i] + [systems[i]];
  }

  /** `add_entity`: makes every system's list of required kinds a key of the
      index, lists the entity's id under it when the entity has all of those
      kinds, and stores the entity under its id. */
  method AddEntity(entity: Entity, entities: map<nat, Entity>, componentMap: map<seq<Component>, set<nat>>,
                   systems: seq<seq<Component>>)
    returns (entities': map<nat, Entity>, componentMap': map<seq<Component>, set<nat>>)
    ensures componentMap' == Listed(componentMap, entity.id, EntityKinds(entity), ListsOf(systems))
    ensures entities' == entities[entity.id := entity]
  {
    componentMap' := componentMap;
    ghost var lists: set<seq<Component>> := {};
    ListedNothing(componentMap, entity.id, EntityKinds(entity));
    var i := 0;
    while i < |systems|
      invariant i <= |systems|
      invariant lists == ListsOf(systems[..i])
      invariant componentMap' == Listed(componentMap, entity.id, EntityKinds(entity), lists)
    {
      var systemRequiredComponents := systems[i];
      var entityComponents := EntityKinds(entity);
      ListsOfPrefix(systems, i);
      if systemRequiredComponents !in componentMap' {
        componentMap' := componentMap'[systemRequiredComponents := {}];
      }
      if SetOf(systemRequiredComponents) <= entityComponents {
        componentMap' := componentMap'[systemRequiredComponents := componentMap'[systemRequiredComponents] + {entity.id}];
        ListSystemAdd(componentMap, entity.id, entityComponents, lists, systemRequiredComponents);
      } else {
        ListSystemKey(componentMap, entity.id, entityComponents, lists, systemRequiredComponents);
      }
      lists := lists + {systemRequiredComponents};
      i := i + 1;
    }
    assert systems[..i] == systems;
    entities' := entities[entity.id := entity];
  }

  /** After registration every system's list is a key, and the id is listed
      under it exactly when the entity has all of its kinds or was listed
      there before. */
  lemma RegisteredSystems(m: map<seq<Component>, set<nat>>, e: Entity, systems: seq<seq<Component>>)
    ensures var r := Listed(m, e.id, EntityKinds(e), ListsOf(systems));
      forall s :: s in systems ==> s in r && (e.id in r[s] <==> SetOf(s) <= EntityKinds(e) || e.id in Lookup(m, s))
  {
  }

  /** Registration lists no other id anywhere new and drops none, and keys
      that are no system's list (one-element lists included) keep their
      sets. */
  lemma RegisteredOthers(m: map<seq<Component>, set<nat>>, e: Entity, systems: seq<seq<Component>>)
    ensures var r := Listed(m, e.id, EntityKinds(e), ListsOf(systems));
      m.Keys <= r.Keys
      && (forall k, j :: j != e.id ==> (j in Lookup(r, k) <==> j in Lookup(m, k)))
      && (forall k :: k !in systems ==> Lookup(r, k) == Lookup(m, k) && (k in r <==> k in m))
  {
  }
}
