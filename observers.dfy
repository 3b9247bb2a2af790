/** The runtime debug observers of `EditorHelpers.cs`: the names given to the
    observer objects of a world and of a system group, and the world
    observer's table of entity nodes, which the world's debug callbacks keep
    in step with the entities. Unity game objects become plain records. */
module Observers {
  import opened Common
  import opened TypeNames
  import opened NumberFormat
  import opened Ecs

  /** The name of the object that observes a world, or the argument-null
      error `Create` throws. */
  function WorldObserverName(world: EcsWorld?, name: Option<string>): Result<string, string> {
    if world == null then Err("world")
    else Ok(if name.Some? then "[ECS-WORLD " + name.value + "]" else "[ECS-WORLD]")
  }

  /** The name of the object that observes a system group, or the
      argument-null error `Create` throws. */
  function SystemsObserverName(systems: EcsSystems?): Result<string, string> {
    if systems == null then Err("systems")
    else Ok(if systems.name.Some? then "[ECS-SYSTEMS " + systems.name.value + "]" else "[ECS-SYSTEMS]")
  }

  /** Reads the optional name back out of an observer object's name that
      starts with `tag` ("[ECS-WORLD" or "[ECS-SYSTEMS"); None when `text`
      is not such a name. */
  function NameInObjectName(tag: string, text: string): Option<Option<string>> {
    if text == tag + "]" then Some(None)
    else if |text| >= |tag| + 2 && text[..|tag| + 1] == tag + " " && text[|text| - 1] == ']'
    then Some(Some(text[|tag| + 1..|text| - 1]))
    else None
  }

  /** A world observer's name is an error exactly for a null world;
      otherwise it gives back the world's name, and never reads as a
      system group observer's name. */
  lemma WorldObserverNameRoundTrip(world: EcsWorld?, name: Option<string>)
    ensures WorldObserverName(world, name).Err? <==> world == null
    ensures world != null ==> NameInObjectName("[ECS-WORLD", WorldObserverName(world, name).value) == Some(name)
    ensures world != null ==> NameInObjectName("[ECS-SYSTEMS", WorldObserverName(world, name).value) == None
  {
    if world != null {
      var name' := WorldObserverName(world, name).value;
      assert name'[5] == 'W';
      if name.Some? {
        var n := name.value;
        assert name'[..11] == "[ECS-WORLD ";
        assert name'[11..|name'| - 1] == n;
      }
    }
  }

  /** A system group observer's name is an error exactly for null groups;
      otherwise it gives back the group's name, and never reads as a world
      observer's name. */
  lemma SystemsObserverNameRoundTrip(systems: EcsSystems?)
    ensures SystemsObserverName(systems).Err? <==> systems == null
    ensures systems != null ==> NameInObjectName("[ECS-SYSTEMS", SystemsObserverName(systems).value) == Some(systems.name)
    ensures systems != null ==> NameInObjectName("[ECS-WORLD", SystemsObserverName(systems).value) == None
  {
    if systems != null {
      var name' := SystemsObserverName(systems).value;
      assert name'[5] == 'S';
      if systems.name.Some? {
        var n := systems.name.value;
        assert name'[..13] == "[ECS-SYSTEMS ";
        assert name'[13..|name'| - 1] == n;
      }
    }
  }

  /** The text `UpdateEntityName` appends for the components `cs`: ":" and
      the clean type name of each, in order; None when printing a type
      throws. */
  function ComponentsSuffix(cs: seq<TypeRef>): Option<string>
    decreases |cs|
  {
    if |cs| == 0 then Some("")
    else
      match ComponentsSuffix(cs[..|cs| - 1])
      case None => None
      case Some(s) =>
        match CleanName(cs[|cs| - 1])
        case None => None
        case Some(c) => Some(s + ":" + c)
  }

  /** The name `UpdateEntityName` gives an entity's node: its id in "D8"
      form, followed by its components' type names only when the entity is
      alive and the components were asked for. */
  function EntityName(e: Entity, requestComponents: bool): Option<string> {
    if e.alive && requestComponents then
      match ComponentsSuffix(e.components)
      case None => None
      case Some(s) => Some(FormatD8(e.id) + s)
    else Some(FormatD8(e.id))
  }

  /** Index of the first component whose type cannot be printed (the length
      when all can): the loop stops there, leaving that slot and the later
      ones of the cache filled. */
  function FirstUnprintable(cs: seq<TypeRef>): (k: nat)
    ensures k <= |cs|
    ensures forall j :: 0 <= j < k ==> CleanName(cs[j]).Some?
    ensures k < |cs| ==> CleanName(cs[k]).None?
    decreases |cs|
  {
    if |cs| == 0 then 0
    else if CleanName(cs[0]).None? then 0
    else 1 + FirstUnprintable(cs[1..])
  }

  /** The suffix exists exactly when every component type prints, and then
      it is empty or starts with ':'. */
  lemma {:induction false} ComponentsSuffixDefined(cs: seq<TypeRef>)
    ensures ComponentsSuffix(cs).Some? <==> forall j :: 0 <= j < |cs| ==> CleanName(cs[j]).Some?
    ensures ComponentsSuffix(cs).Some? ==> ComponentsSuffix(cs).value == "" || ComponentsSuffix(cs).value[0] == ':'
    decreases |cs|
  {
    if |cs| > 0 {
      var init := cs[..|cs| - 1];
      ComponentsSuffixDefined(init);
      assert forall j :: 0 <= j < |init| ==> init[j] == cs[j];
    }
  }

  /** With every component printable, the node's name is the id and the
      clean type names joined by ':'. */
  lemma {:induction false} ComponentsSuffixJoin(cs: seq<TypeRef>, names: seq<string>, id: string)
    requires |names| == |cs|
    requires forall j :: 0 <= j < |cs| ==> CleanName(cs[j]) == Some(names[j])
    ensures ComponentsSuffix(cs).Some? && id + ComponentsSuffix(cs).value == Join([id] + names, ":")
    decreases |cs|
  {
    if |cs| > 0 {
      var n := |cs| - 1;
      var front := names[..n];
      ComponentsSuffixJoin(cs[..n], front, id);
      var s := ComponentsSuffix(cs[..n]).value;
      JoinAppend([id] + front, ":", names[n]);
      assert [id] + front + [names[n]] == [id] + names;
      AppendAssoc(id, s, ":" + names[n]);
      AppendAssoc(s, ":", names[n]);
      AppendAssoc(id + s, ":", names[n]);
    }
  }

  /** The name of an entity's node: absent exactly when the components were
      asked for, the entity is alive and some component type cannot be
      printed; otherwise the "D8" id, joined by ':' with the clean
      component type names when those were asked for and the entity is
      alive. */
  lemma EntityNameParts(e: Entity, requestComponents: bool, names: seq<string>)
    requires |names| == |e.components|
    requires forall j :: 0 <= j < |names| ==> CleanName(e.components[j]) == Some(names[j])
    ensures EntityName(e, requestComponents) ==
            Some(if e.alive && requestComponents then Join([FormatD8(e.id)] + names, ":") else FormatD8(e.id))
  {
    ComponentsSuffixJoin(e.components, names, FormatD8(e.id));
  }

  lemma EntityNameDefined(e: Entity, requestComponents: bool)
    ensures EntityName(e, requestComponents).None? <==>
            e.alive && requestComponents && FirstUnprintable(e.components) < |e.components|
  {
    ComponentsSuffixDefined(e.components);
  }

  /** The text before the first ':'. */
  function BeforeColon(s: string): string
    decreases |s|
  {
    if |s| == 0 || s[0] == ':' then "" else [s[0]] + BeforeColon(s[1..])
  }

  lemma {:induction false} BeforeColonOfParts(a: string, b: string)
    requires forall i :: 0 <= i < |a| ==> a[i] != ':'
    requires b == "" || b[0] == ':'
    ensures BeforeColon(a + b) == a
    decreases |a|
  {
    if |a| > 0 {
      assert (a + b)[1..] == a[1..] + b;
      BeforeColonOfParts(a[1..], b);
    }
  }

  /** Whatever the components, the entity's id can be read back from its
      node's name: it is the text before the first ':'. */
  lemma EntityNameCarriesId(e: Entity, requestComponents: bool)
    requires EntityName(e, requestComponents).Some?
    ensures ParseInt(BeforeColon(EntityName(e, requestComponents).value)) == Some(e.id)
  {
    var d := FormatD8(e.id);
    FormatD8Shape(e.id);
    FormatD8RoundTrip(e.id);
    ComponentsSuffixDefined(e.components);
    if e.alive && requestComponents {
      BeforeColonOfParts(d, ComponentsSuffix(e.components).value);
    } else {
      BeforeColonOfParts(d, "");
      assert d + "" == d;
    }
  }

  /** One more printable component extends the suffix by ':' and its name. */
  lemma SuffixStep(cs: seq<TypeRef>, i: nat, name: string, suffix: string)
    requires i < |cs| && ComponentsSuffix(cs[..i]) == Some(suffix) && CleanName(cs[i]).Some?
    ensures ComponentsSuffix(cs[..i + 1]) == Some(suffix + ":" + CleanName(cs[i]).value)
    ensures name + suffix + ":" + CleanName(cs[i]).value == name + (suffix + ":" + CleanName(cs[i]).value)
  {
    assert cs[..i + 1][..i] == cs[..i];
    var c := CleanName(cs[i]).value;
    AppendAssoc(name, suffix, ":" + c);
    AppendAssoc(suffix, ":", c);
    AppendAssoc(name + suffix, ":", c);
  }

  /** The loop of `UpdateEntityName`: appends ':' and the clean type name
      of each fetched component to `name`, emptying each cache slot once it
      is read; an unprintable type ends the loop by throwing, leaving its
      slot and the later ones filled. */
  method AppendComponentNames(cache: array<Option<TypeRef>>, cs: seq<TypeRef>, name: string)
    returns (r: Option<string>)
    requires |cs| <= cache.Length
    requires forall j :: 0 <= j < |cs| ==> cache[j] == Some(cs[j])
    modifies cache
    ensures r == (match ComponentsSuffix(cs) case None => None case Some(s) => Some(name + s))
    ensures forall j :: 0 <= j < |cs| ==>
              cache[j] == if j < FirstUnprintable(cs) then None else Some(cs[j])
    ensures forall j :: |cs| <= j < cache.Length ==> cache[j] == old(cache[j])
  {
    var entityName := name;
    ghost var suffix := "";
    var i := 0;
    while i < |cs|
      invariant 0 <= i <= |cs|
      invariant forall j :: 0 <= j < i ==> CleanName(cs[j]).Some?
      invariant ComponentsSuffix(cs[..i]) == Some(suffix)
      invariant entityName == name + suffix
      invariant forall j :: 0 <= j < i ==> cache[j] == None
      invariant forall j :: i <= j < cache.Length ==> cache[j] == old(cache[j])
    {
      assert cache[i] == Some(cs[i]);
      var clean := GetCleanGenericTypeName(cache[i].value);
      assert clean == CleanName(cs[i]);
      if clean.None? {
        ComponentsSuffixDefined(cs);
        return None;
      }
      SuffixStep(cs, i, name, suffix);
      entityName := entityName + ":" + clean.value;
      suffix := suffix + ":" + clean.value;
      cache[i] := None;
      i := i + 1;
    }
    assert cs[..i] == cs;
    r := Some(entityName);
  }

  /** A Unity game object's name before it is first set. */
  const NewGameObjectName: string := "New Game Object"

  /** The visual node of one entity: the entity handle it shows, whether
      the node is active, and its name. */
  datatype EntityView = EntityView(entity: Entity, active: bool, name: string)

  /** Exceptions the world observer's callbacks can throw. */
  datatype Fault =
    | MissingVisualization   // destroy callback for an entity without a node
    | KeyNotFound            // renaming an entity without a node
    | UnprintableType        // a component type name the printer cannot clean

  /** `EcsSystemsObserver`: the object that shows a system group. */
  class EcsSystemsObserver {
    const systems: EcsSystems
    const objectName: string

    constructor (systems: EcsSystems, objectName: string)
      ensures this.systems == systems && this.objectName == objectName
    {
      this.systems := systems;
      this.objectName := objectName;
    }

    /** `Create`: refuses a null group, and names the object after it. */
    static method Create(systems: EcsSystems?) returns (r: Result<EcsSystemsObserver, string>)
      ensures systems == null ==> r == Err("systems")
      ensures systems != null ==>
        r.Ok? && fresh(r.value) && r.value.systems == systems &&
        r.value.objectName == SystemsObserverName(systems).value
    {
      if systems == null {
        return Err("systems");
      }
      var observer := new EcsSystemsObserver(systems, SystemsObserverName(systems).value);
      return Ok(observer);
    }
  }

  /** `EcsWorldObserver`: the object that shows a world, with one node per
      entity id. `componentsCache` is the array reused to fetch an entity's
      components. */
  class EcsWorldObserver {
    const world: EcsWorld
    const objectName: string
    var entities: map<int, EntityView>
    var componentsCache: array<Option<TypeRef>>

    /** Every node shows an entity with the id it is filed under. */
    ghost predicate Valid()
      reads this
    {
      forall id :: id in entities ==> entities[id].entity.id == id
    }

    constructor (world: EcsWorld, objectName: string)
      ensures Valid() && this.world == world && this.objectName == objectName
      ensures entities == map[] && fresh(componentsCache) && componentsCache.Length == 32
      ensures forall i :: 0 <= i < 32 ==> componentsCache[i] == None
    {
      this.world := world;
      this.objectName := objectName;
      entities := map[];
      componentsCache := new Option<TypeRef>[32](_ => None);
    }

    /** `Create`: refuses a null world, and names the object after the
      optional world name. */
    static method Create(world: EcsWorld?, name: Option<string>) returns (r: Result<EcsWorldObserver, string>)
      ensures world == null ==> r == Err("world")
      ensures world != null ==>
        r.Ok? && fresh(r.value) && r.value.Valid() && r.value.world == world &&
        r.value.objectName == WorldObserverName(world, name).value && r.value.entities == map[]
    {
      if world == null {
        return Err("world");
      }
      var observer := new EcsWorldObserver(world, WorldObserverName(world, name).value);
      return Ok(observer);
    }

    /** The library's `entity.GetComponents (ref cache)`: fills the first
        slots of the cache with the entity's components, replacing the cache
        by a fresh array when it is too short. */
    method GetComponents(e: Entity) returns (count: nat)
      modifies this, componentsCache
      ensures count == |e.components| <= componentsCache.Length
      ensures forall j :: 0 <= j < count ==> componentsCache[j] == Some(e.components[j])
      ensures old(componentsCache.Length) >= count ==> componentsCache == old(componentsCache)
      ensures old(componentsCache.Length) < count ==> fresh(componentsCache)
      ensures componentsCache == old(componentsCache) ==>
                forall j :: count <= j < componentsCache.Length ==> componentsCache[j] == old(componentsCache[j])
      ensures entities == old(entities)
    {
      count := |e.components|;
      if componentsCache.Length < count {
        componentsCache := new Option<TypeRef>[count](_ => None);
      }
      var j := 0;
      while j < count
        invariant 0 <= j <= count <= componentsCache.Length
        invariant old(componentsCache.Length) >= count ==> componentsCache == old(componentsCache)
        invariant old(componentsCache.Length) < count ==> fresh(componentsCache) && componentsCache.Length == count
        invariant forall k :: 0 <= k < j ==> componentsCache[k] == Some(e.components[k])
        invariant componentsCache == old(componentsCache) ==>
                    forall k :: count <= k < componentsCache.Length ==> componentsCache[k] == old(componentsCache[k])
        invariant entities == old(entities)
      {
        componentsCache[j] := Some(e.components[j]);
        j := j + 1;
      }
    }

    /** What `UpdateEntityName` leaves behind: the node renamed, or the
        exception it throws, and the cache slots it emptied. A cache long
        enough for the entity's components is kept, with the slots past them
        untouched; a shorter one is replaced by a fresh array. */
    twostate predicate Renamed(e: Entity, requestComponents: bool, new fault: Option<Fault>)
      reads this, componentsCache
    {
      && (match EntityName(e, requestComponents)
          case None => fault == Some(UnprintableType) && entities == old(entities)
          case Some(n) =>
            if e.id in old(entities) then
              fault == None && entities == old(entities)[e.id := old(entities)[e.id].(name := n)]
            else fault == Some(KeyNotFound) && entities == old(entities))
      && (!(e.alive && requestComponents) ==> componentsCache == old(componentsCache) && unchanged(componentsCache))
      && (e.alive && requestComponents ==>
            && |e.components| <= componentsCache.Length
            && (forall j :: 0 <= j < |e.components| ==>
                  componentsCache[j] == if j < FirstUnprintable(e.components) then None else Some(e.components[j]))
            && (old(componentsCache.Length) >= |e.components| ==> componentsCache == old(componentsCache))
            && (old(componentsCache.Length) < |e.components| ==> fresh(componentsCache))
            && (componentsCache == old(componentsCache) ==>
                  forall j :: |e.components| <= j < componentsCache.Length ==> componentsCache[j] == old(componentsCache[j])))
    }

    /** Names the entity's node after its id and, when asked and the entity
        is alive, after its components' types, emptying each cache slot it
        has read. */
    method UpdateEntityName(e: Entity, requestComponents: bool) returns (fault: Option<Fault>)
      requires Valid()
      modifies this, componentsCache
      ensures Valid() && Renamed(e, requestComponents, fault)
    {
      var entityName := FormatD8(e.id);
      if e.alive && requestComponents {
        var count := GetComponents(e);
        var named := AppendComponentNames(componentsCache, e.components, entityName);
        if named.None? {
          return Some(UnprintableType);
        }
        entityName := named.value;
      }
      if e.id !in entities {
        return Some(KeyNotFound);
      }
      entities := entities[e.id := entities[e.id].(name := entityName)];
      return None;
    }

    /** Debug callback: an entity was created. Its node is added (named
        after the id) when the id is new; otherwise the node only takes the
        new handle. Either way the node ends up active. */
    method OnEntityCreated(e: Entity)
      requires Valid()
      modifies this, componentsCache
      ensures Valid() && componentsCache == old(componentsCache) && unchanged(componentsCache)
      ensures e.id !in old(entities) ==>
        entities == old(entities)[e.id := EntityView(e, true, FormatD8(e.id))]
      ensures e.id in old(entities) ==>
        entities == old(entities)[e.id := old(entities)[e.id].(entity := e, active := true)]
    {
      if e.id !in entities {
        entities := entities[e.id := EntityView(e, true, NewGameObjectName)];
        var fault := UpdateEntityName(e, false);
        assert fault == None;
      } else {
        entities := entities[e.id := entities[e.id].(entity := e)];
      }
      entities := entities[e.id := entities[e.id].(active := true)];
    }

    /** Debug callback: an entity was destroyed. Throws when the entity has
        no node; otherwise the node is renamed to the bare id and
        deactivated, and no other node changes. */
    method OnEntityDestroyed(e: Entity) returns (fault: Option<Fault>)
      requires Valid()
      modifies this, componentsCache
      ensures Valid() && componentsCache == old(componentsCache) && unchanged(componentsCache)
      ensures e.id !in old(entities) ==> fault == Some(MissingVisualization) && entities == old(entities)
      ensures e.id in old(entities) ==>
        fault == None &&
        entities == old(entities)[e.id := old(entities)[e.id].(active := false, name := FormatD8(e.id))]
    {
      if e.id !in entities {
        return Some(MissingVisualization);
      }
      fault := UpdateEntityName(e, false);
      entities := entities[e.id := entities[e.id].(active := false)];
    }

    /** Debug callback: a component was added to the entity. */
    method OnComponentAdded(e: Entity) returns (fault: Option<Fault>)
      requires Valid()
      modifies this, componentsCache
      ensures Valid() && Renamed(e, true, fault)
    {
      fault := UpdateEntityName(e, true);
    }

    /** Debug callback: a component was removed from the entity. */
    method OnComponentRemoved(e: Entity) returns (fault: Option<Fault>)
      requires Valid()
      modifies this, componentsCache
      ensures Valid() && Renamed(e, true, fault)
    {
      fault := UpdateEntityName(e, true);
    }
  }
}
