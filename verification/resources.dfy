/**
  The world collaborator, as far as the dispatch core sees it: resources
  keyed by type identity, and the `SystemData` declaration of what a system
  reads and writes. The storage itself is specs' and is not part of this
  model.
*/
module Resources {
  import opened ShredEvent

  /** `ResourceId` wraps the resource type's `TypeId`. */
  type ResourceId = TypeTag

  /** A stored resource: the notifier queue, or any other resource, seen as an opaque value. */
  datatype Resource = NotifierQueue(events: seq<Event>) | Other(value: int)

  /** The resources of a world (or `Resources` table), one per type. */
  type World = map<ResourceId, Resource>

  /** The identity of the `NotifierQueue` resource type. */
  const NotifierQueueId: ResourceId := TypeOf("NotifierQueue")

  /** `SystemData::reads` and `SystemData::writes` of one data type. */
  datatype SystemDataDecl = SystemDataDecl(readIds: seq<ResourceId>, writeIds: seq<ResourceId>)

  /** Every resource the declaration names. */
  function Declared(d: SystemDataDecl): set<ResourceId>
  {
    set id | id in d.readIds + d.writeIds
  }

  /** specs' `fetch` panics on a missing resource; resolvable means none is missing. */
  predicate Resolvable(w: World, d: SystemDataDecl)
  {
    Declared(d) <= w.Keys
  }

  /** `SystemData::fetch`: the declared resources, as the world holds them. */
  function Fetch(w: World, d: SystemDataDecl): (data: map<ResourceId, Resource>)
    requires Resolvable(w, d)
    ensures data.Keys == Declared(d)
    ensures forall id :: id in data ==> data[id] == w[id]
  {
    map id | id in Declared(d) :: w[id]
  }
}
