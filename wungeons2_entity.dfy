/** Entities of the second dungeon game (wungeons2/src/entity.rs): an id, a
    list of components, and an index from each component kind (its default,
    see `GetDefaultComponent`) to the position of a component of that kind
    in the list. */
module Entities {
  import opened Wrappers
  import opened Components

  datatype Entity = Entity(id: nat, components: seq<Component>, componentIndex: map<Component, nat>)

  /** The kind of each component, in order. */
  function KindSeq(cs: seq<Component>): (ks: seq<Component>)
    ensures |ks| == |cs| && forall i :: 0 <= i < |cs| ==> ks[i] == GetDefaultComponent(cs[i])
  {
    seq(|cs|, i requires 0 <= i < |cs| => GetDefaultComponent(cs[i]))
  }

  /** Every key d of m occurs in keys at position m[d] and at no later
      position. */
  predicate IndexesLast<K>(keys: seq<K>, m: map<K, nat>) {
    forall d :: d in m ==>
      m[d] < |keys| && keys[m[d]] == d
      && forall k :: m[d] < k < |keys| ==> keys[k] != d
  }

  /** `HashMap::from_iter` over `(key, position)` pairs in order: one entry
      per distinct key, and a later position overwrites an earlier one. */
  function LastIndex<K>(keys: seq<K>): (m: map<K, nat>)
    ensures m.Keys == set k | k in keys
    ensures IndexesLast(keys, m)
    decreases |keys|
  {
    if keys == [] then map[]
    else
      var init := keys[..|keys| - 1];
      var m := LastIndex(init);
      LastIndexSnoc(init, keys[|keys| - 1], m);
      assert keys == init + [keys[|keys| - 1]];
      m[keys[|keys| - 1] := |keys| - 1]
  }

  /** Appending a key keeps the last-position property once that key is
      mapped to the new last position. */
  lemma LastIndexSnoc<K>(init: seq<K>, last: K, m: map<K, nat>)
    requires m.Keys == set k | k in init
    requires IndexesLast(init, m)
    ensures m[last := |init|].Keys == set k | k in init + [last]
    ensures IndexesLast(init + [last], m[last := |init|])
  {
    var keys := init + [last];
    var m' := m[last := |init|];
    forall d | d in m'
      ensures m'[d] < |keys| && keys[m'[d]] == d
      ensures forall k :: m'[d] < k < |keys| ==> keys[k] != d
    {
      if d != last {
        assert m'[d] == m[d] && keys[m[d]] == init[m[d]];
        forall k | m'[d] < k < |keys| ensures keys[k] != d {
          if k < |init| { assert keys[k] == init[k]; }
        }
      }
    }
  }

  /** The index `new_entity` builds: the last position of each component
      kind. */
  function ComponentIndex(cs: seq<Component>): map<Component, nat> {
    LastIndex(KindSeq(cs))
  }

  /** The index has a key for exactly the kinds of the components. */
  lemma KindsIndexed(cs: seq<Component>)
    ensures forall d :: d in ComponentIndex(cs) <==> exists c :: c in cs && GetDefaultComponent(c) == d
  {
    var ks := KindSeq(cs);
    forall d | d in ComponentIndex(cs)
      ensures exists c :: c in cs && GetDefaultComponent(c) == d
    {
      var i :| 0 <= i < |ks| && ks[i] == d;
      assert cs[i] in cs;
    }
    forall d | exists c :: c in cs && GetDefaultComponent(c) == d
      ensures d in ComponentIndex(cs)
    {
      var c :| c in cs && GetDefaultComponent(c) == d;
      var i :| 0 <= i < |cs| && cs[i] == c;
      assert ks[i] in ks;
    }
  }

  /** The entity's index is the one `new_entity` builds from its components. */
  predicate Built(e: Entity) {
    e.componentIndex == ComponentIndex(e.components)
  }

  /** `new_entity`: takes the counter's value as the id and returns the
      counter incremented by one; the entity keeps the components in order
      and indexes them by kind. */
  method NewEntity(entityIdCounter: nat, components: seq<Component>) returns (e: Entity, next: nat)
    ensures e.id == entityIdCounter && next == entityIdCounter + 1
    ensures e.components == components && Built(e)
    ensures forall d :: d in e.componentIndex <==> exists c :: c in components && GetDefaultComponent(c) == d
  {
    KindsIndexed(components);
    var id := entityIdCounter;
    next := entityIdCounter + 1;
    e := Entity(id, components, ComponentIndex(components));
  }

  /** `Entity::contains_component`: for a built entity, whether some
      component of it is of the given kind. */
  function ContainsComponent(e: Entity, component: Component): (b: bool)
    ensures Built(e) ==> (b <==> exists c :: c in e.components && GetDefaultComponent(c) == component)
  {
    if Built(e) then KindsIndexed(e.components); component in e.componentIndex
    else component in e.componentIndex
  }

  /** Every index entry points into the component list; `new_entity`'s
      entities satisfy it, and `get_component` panics on an entity that
      does not. */
  predicate IndexInRange(e: Entity) {
    forall d :: d in e.componentIndex ==> e.componentIndex[d] < |e.components|
  }

  /** `Entity::get_component`: `None` when the kind is not indexed; for a
      built entity, otherwise the last component of that kind. */
  function GetComponent(e: Entity, component: Component): (r: Option<Component>)
    requires IndexInRange(e)
    ensures r.None? <==> !ContainsComponent(e, component)
    ensures Built(e) && r.Some? ==>
      exists k :: 0 <= k < |e.components| && r.value == e.components[k]
        && GetDefaultComponent(r.value) == component
        && forall k' :: k < k' < |e.components| ==> GetDefaultComponent(e.components[k']) != component
  {
    if component !in e.componentIndex then None
    else Some(e.components[e.componentIndex[component]])
  }

  /** Replacing a component by one of the same kind leaves the index as it
      was, so an entity stays built under `set_component`. */
  lemma SetSlotKeepsIndex(cs: seq<Component>, slot: nat, c: Component)
    requires slot < |cs| && GetDefaultComponent(cs[slot]) == GetDefaultComponent(c)
    ensures ComponentIndex(cs[slot := c]) == ComponentIndex(cs)
  {
    assert KindSeq(cs[slot := c]) == KindSeq(cs);
  }

  /** After the slot of c's kind is overwritten with c, getting that kind
      gives c, and every other kind gives what it gave before. */
  lemma SetSlotGet(e: Entity, c: Component)
    requires Built(e) && GetDefaultComponent(c) in e.componentIndex
    ensures var slot := e.componentIndex[GetDefaultComponent(c)];
      var e' := e.(components := e.components[slot := c]);
      Built(e') && IndexInRange(e) && IndexInRange(e')
      && GetComponent(e', GetDefaultComponent(c)) == Some(c)
      && forall d :: d != GetDefaultComponent(c) && IndexInRange(e) ==> GetComponent(e', d) == GetComponent(e, d)
  {
    var slot := e.componentIndex[GetDefaultComponent(c)];
    SetSlotKeepsIndex(e.components, slot, c);
  }
}
