/**
 * The components a pointer entity carries, and the entity store that holds
 * the pointers of one process (server or client).
 */
module Components {
  import opened Ids
  import opened Wrappers
  import opened Protocol

  /** A 2-D vector; `f32` coordinates are modelled as exact reals. */
  datatype Vec2 = Vec2(x: real, y: real)

  /** An entity's current world position (the x and y of its transform). */
  type Location = Vec2

  const POINTER_SPEED: u64 := 100

  /** Where an entity is heading, whether it is still heading there, and how fast (units per second). */
  datatype Movable = Movable(targetLocation: Vec2, active: bool, speed: u64)

  /** `Movable::new`: a fresh movable heads for `target` at the pointer speed. */
  function NewMovable(target: Vec2): (m: Movable)
    ensures m.targetLocation == target
    ensures m.active
    ensures m.speed == POINTER_SPEED
  {
    Movable(target, true, POINTER_SPEED)
  }

  /** `Movable::update`: every field is taken from `incoming`. */
  function UpdateMovable(current: Movable, incoming: Movable): (r: Movable)
    ensures r.speed == incoming.speed
    ensures r.active == incoming.active
    ensures r.targetLocation == incoming.targetLocation
  {
    current.(speed := incoming.speed, active := incoming.active, targetLocation := incoming.targetLocation)
  }

  /** Updating with the same movable twice is the same as updating once. */
  lemma UpdateMovableIdempotent(current: Movable, incoming: Movable)
    ensures UpdateMovable(UpdateMovable(current, incoming), incoming) == UpdateMovable(current, incoming)
  {
  }

  datatype PlayerControllable = PlayerControllable(owner: PlayerId)

  /**
   * One pointer entity: its network id, its owner, its movable and its
   * position. `movableChanged` is the entity's change-detection mark for the
   * `Movable` component: set when the component is added or written through,
   * cleared when the change has been broadcast.
   */
  datatype Pointer = Pointer(
    sync: NetworkSync,
    control: PlayerControllable,
    movable: Movable,
    location: Location,
    movableChanged: bool)

  /** The pointers of one process, in query iteration order. */
  type Store = seq<Pointer>

  /** The first pointer, in iteration order, whose id is `id` (a query's `find`). */
  function FindUnit(store: Store, id: NetworkObjectId): (r: Option<nat>)
    ensures r.Some? ==> r.value < |store| && store[r.value].sync.uniqueId == id
    ensures r.Some? ==> forall j :: 0 <= j < r.value ==> store[j].sync.uniqueId != id
    ensures r.None? <==> forall j :: 0 <= j < |store| ==> store[j].sync.uniqueId != id
    decreases |store|
  {
    if store == [] then None
    else if store[0].sync.uniqueId == id then Some(0)
    else
      match FindUnit(store[1..], id)
      case None => None
      case Some(k) => Some(k + 1)
  }

  /** Two stores that agree on every entity's id answer every lookup alike. */
  lemma FindUnitSameIds(a: Store, b: Store, id: NetworkObjectId)
    requires |a| == |b|
    requires forall i :: 0 <= i < |a| ==> a[i].sync == b[i].sync
    ensures FindUnit(a, id) == FindUnit(b, id)
  {
  }

  /** No two entities of the store share an id. */
  ghost predicate UniqueIds(store: Store)
  {
    forall i, j :: 0 <= i < j < |store| ==> store[i].sync.uniqueId != store[j].sync.uniqueId
  }
}
