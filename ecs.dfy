/** Stand-ins for the external ECS library, reduced to what the editor code
    reads: entity handles, worlds, system groups and their run items. Only
    `RunItem.active` is ever written by the code modelled here; everything
    else is a constant. */
module Ecs {
  import opened Common
  import opened TypeNames

  /** An `EcsEntity` handle: its internal id, its generation, whether
      `IsAlive ()` holds, and the types of the components `GetComponents`
      lists for it, in that order. */
  datatype Entity = Entity(id: int, gen: int, alive: bool, components: seq<TypeRef>)

  /** An `EcsWorld`; the editor code only tests it against null. */
  class EcsWorld {
    constructor ()
    {
    }
  }

  /** A system as the inspector sees it: a plain system, known by its type
      name, or a nested group of systems. */
  datatype SystemKind = Plain(typeName: string) | Group(systems: EcsSystems)

  /** An entry of `GetAllSystems ()`, with the interfaces it implements. */
  datatype SystemItem = SystemItem(kind: SystemKind, isInit: bool, isDestroy: bool)

  /** An entry of `GetRunSystems ()`: the `Active` flag, which the inspector
      writes, and the run system it switches. */
  class RunItem {
    var active: bool
    const system: SystemKind

    constructor (system: SystemKind, active: bool)
      ensures this.system == system && this.active == active
    {
      this.system := system;
      this.active := active;
    }
  }

  /** An `EcsSystems` group: its optional `Name`, its runtime type name, its
      systems and its run items. `height` bounds the nesting of groups below
      this one, and `runItems` is a footprint holding every run item
      reachable from it (possibly more); both are proof devices. */
  class EcsSystems {
    const name: Option<string>
    const typeName: string
    const allSystems: seq<SystemItem>
    const runSystems: seq<RunItem>
    ghost const height: nat
    ghost const runItems: set<RunItem>

    constructor (name: Option<string>, typeName: string, allSystems: seq<SystemItem>,
                 runSystems: seq<RunItem>, ghost height: nat, ghost runItems: set<RunItem>)
      ensures this.name == name && this.typeName == typeName
      ensures this.allSystems == allSystems && this.runSystems == runSystems
      ensures this.height == height && this.runItems == runItems
    {
      this.name := name;
      this.typeName := typeName;
      this.allSystems := allSystems;
      this.runSystems := runSystems;
      this.height := height;
      this.runItems := runItems;
    }
  }

  /** Groups nest without cycles: every group listed by `g`, among its
      systems or its run items, sits strictly lower than `g`; and the
      footprint of `g` holds its own run items and the footprints of the
      groups they run. The inspector's recursive walks terminate only on
      such structures. */
  ghost predicate Tree(g: EcsSystems)
    decreases g.height
  {
    && (forall i :: 0 <= i < |g.allSystems| && g.allSystems[i].kind.Group? ==>
          g.allSystems[i].kind.systems.height < g.height && Tree(g.allSystems[i].kind.systems))
    && (forall i :: 0 <= i < |g.runSystems| ==> g.runSystems[i] in g.runItems)
    && (forall i :: 0 <= i < |g.runSystems| && g.runSystems[i].system.Group? ==>
          && g.runSystems[i].system.systems.height < g.height
          && g.runSystems[i].system.systems.runItems <= g.runItems
          && Tree(g.runSystems[i].system.systems))
  }

  /** The run items reachable from `g`: its own run items and, for each
      of them that runs a group, the run items reachable from that group. */
  ghost function Reachable(g: EcsSystems): (r: set<RunItem>)
    requires Tree(g)
    ensures r <= g.runItems
    decreases g.height, 1, 0
  {
    ReachablePrefix(g, |g.runSystems|)
  }

  /** The run items reachable through the first `n` run items of `g`. */
  ghost function ReachablePrefix(g: EcsSystems, n: nat): (r: set<RunItem>)
    requires Tree(g) && n <= |g.runSystems|
    ensures r <= g.runItems
    decreases g.height, 0, n
  {
    if n == 0 then {}
    else
      var item := g.runSystems[n - 1];
      RunItemsOf(g, n - 1);
      ReachablePrefix(g, n - 1) + {item} +
        (if item.system.Group? then Reachable(item.system.systems) else {})
  }

  /** What `Tree` says about the run item at index `i` of `g`. */
  lemma RunItemsOf(g: EcsSystems, i: nat)
    requires Tree(g) && i < |g.runSystems|
    ensures g.runSystems[i] in g.runItems
    ensures g.runSystems[i].system.Group? ==>
              var h := g.runSystems[i].system.systems;
              Tree(h) && h.height < g.height && h.runItems <= g.runItems
  {
  }
}
