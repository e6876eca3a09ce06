/**
 * The shared game rules: the ownership check on player commands and the
 * per-tick movement step of a pointer toward its target.
 */
module Game {
  import opened Ids
  import opened Wrappers
  import opened Components
  import opened Events

  /** The one way a command can fail validation. */
  datatype PlayerCommandValidationError = NotOwned(attempted: PlayerId, owner: PlayerId)

  /** A player may command only the units it owns; the command itself is not inspected. */
  function ValidatePlayerCommand(playerId: PlayerId, controllable: PlayerControllable, command: PlayerCommand)
    : (r: Result<(), PlayerCommandValidationError>)
    ensures r.Ok? <==> playerId == controllable.owner
    ensures r.Err? ==> r.error == NotOwned(playerId, controllable.owner)
  {
    if playerId != controllable.owner then Err(NotOwned(playerId, controllable.owner)) else Ok(())
  }

  /** The verdict depends on the player and the owner only. */
  lemma ValidationIgnoresCommand(playerId: PlayerId, controllable: PlayerControllable, c1: PlayerCommand, c2: PlayerCommand)
    ensures ValidatePlayerCommand(playerId, controllable, c1) == ValidatePlayerCommand(playerId, controllable, c2)
  {
  }

  // ---------------------------------------------------------------------
  // Movement

  function SqDistance(a: Vec2, b: Vec2): real
  {
    (b.x - a.x) * (b.x - a.x) + (b.y - a.y) * (b.y - a.y)
  }

  /** `d` is the Euclidean distance from `a` to `b`. */
  ghost predicate IsDistance(d: real, a: Vec2, b: Vec2)
  {
    d >= 0.0 && d * d == SqDistance(a, b)
  }

  /** How far a movable may travel in a tick of `delta` seconds. */
  function Reach(m: Movable, delta: real): real
  {
    delta * (m.speed as int as real)
  }

  /** One step of length `reach` from `from` along the unit vector toward `to`, which lies `distance` away. */
  function Advance(from: Vec2, to: Vec2, distance: real, reach: real): Vec2
    requires distance > 0.0
  {
    Vec2(from.x + (to.x - from.x) / distance * reach,
         from.y + (to.y - from.y) / distance * reach)
  }

  /** A step shorter than the remaining distance leaves exactly the difference still to go. */
  lemma AdvanceRemaining(from: Vec2, to: Vec2, distance: real, reach: real)
    requires IsDistance(distance, from, to)
    requires 0.0 <= reach < distance
    ensures IsDistance(distance - reach, Advance(from, to, distance, reach), to)
  {
    var next := Advance(from, to, distance, reach);
    var c := (distance - reach) / distance;
    var dx, dy := to.x - from.x, to.y - from.y;
    assert to.x - next.x == dx * c by {
      assert to.x - next.x == dx - dx / distance * reach;
      assert dx - dx / distance * reach == dx * ((distance - reach) / distance);
    }
    assert to.y - next.y == dy * c by {
      assert to.y - next.y == dy - dy / distance * reach;
      assert dy - dy / distance * reach == dy * ((distance - reach) / distance);
    }
    calc {
      SqDistance(next, to);
      (dx * c) * (dx * c) + (dy * c) * (dy * c);
      (dx * dx + dy * dy) * (c * c);
      { assert dx * dx + dy * dy == distance * distance; }
      (distance * distance) * (c * c);
      (distance * c) * (distance * c);
      { assert distance * c == distance - reach; }
      (distance - reach) * (distance - reach);
    }
  }

  /**
   * One tick of `move_movable` for one pointer, given the distance from its
   * position to its target. An inactive pointer is left alone. A pointer
   * within reach lands exactly on its target and stops; any other pointer
   * stays active and moves `reach` closer without passing the target.
   */
  function MoveStep(p: Pointer, delta: real, distance: real): (r: Pointer)
    requires delta >= 0.0
    requires IsDistance(distance, p.location, p.movable.targetLocation)
    ensures r.sync == p.sync && r.control == p.control
    ensures r.movable.targetLocation == p.movable.targetLocation && r.movable.speed == p.movable.speed
    ensures !p.movable.active ==> r == p
    ensures p.movable.active && distance <= Reach(p.movable, delta) ==>
      r.location == p.movable.targetLocation && !r.movable.active && r.movableChanged
    ensures p.movable.active && distance > Reach(p.movable, delta) ==> r.movable.active
    ensures r.movable.active ==>
      && distance > Reach(p.movable, delta)
      && r.movable == p.movable
      && r.movableChanged == p.movableChanged
      && IsDistance(distance - Reach(p.movable, delta), r.location, r.movable.targetLocation)
  {
    if !p.movable.active then p
    else
      var reach := Reach(p.movable, delta);
      var target := p.movable.targetLocation;
      if distance <= reach then
        p.(movable := p.movable.(active := false), location := target, movableChanged := true)
      else
        AdvanceRemaining(p.location, target, distance, reach);
        p.(location := Advance(p.location, target, distance, reach))
  }

  /** The distance left to the target after `MoveStep`. */
  function Remaining(p: Pointer, delta: real, distance: real): (d: real)
    requires delta >= 0.0
    requires IsDistance(distance, p.location, p.movable.targetLocation)
    ensures IsDistance(d, MoveStep(p, delta, distance).location, p.movable.targetLocation)
    ensures d <= distance
  {
    var r := MoveStep(p, delta, distance);
    if r.movable.active then distance - Reach(p.movable, delta)
    else if p.movable.active then 0.0
    else distance
  }

  /** `n` ticks of `delta` seconds each, with the target held fixed. */
  function Ticks(p: Pointer, delta: real, distance: real, n: nat): (r: Pointer)
    requires delta >= 0.0
    requires IsDistance(distance, p.location, p.movable.targetLocation)
    ensures r.sync == p.sync && r.control == p.control
    ensures r.movable.targetLocation == p.movable.targetLocation
    decreases n
  {
    if n == 0 then p
    else Ticks(MoveStep(p, delta, distance), delta, Remaining(p, delta, distance), n - 1)
  }

  /** A pointer at rest stays where it is, however many ticks pass. */
  lemma {:induction false} AtRestStaysPut(p: Pointer, delta: real, distance: real, n: nat)
    requires delta >= 0.0
    requires IsDistance(distance, p.location, p.movable.targetLocation)
    requires !p.movable.active
    ensures Ticks(p, delta, distance, n) == p
    decreases n
  {
    if n > 0 {
      AtRestStaysPut(p, delta, Remaining(p, delta, distance), n - 1);
    }
  }

  /**
   * Arrival: an active pointer given at least one tick, and enough ticks to
   * cover its distance, ends exactly on its target and at rest.
   */
  lemma {:induction false} ArrivalConvergence(p: Pointer, delta: real, distance: real, n: nat)
    requires delta >= 0.0
    requires IsDistance(distance, p.location, p.movable.targetLocation)
    requires p.movable.active
    requires Reach(p.movable, delta) > 0.0
    requires n >= 1 && n as real * Reach(p.movable, delta) >= distance
    ensures Ticks(p, delta, distance, n).location == p.movable.targetLocation
    ensures !Ticks(p, delta, distance, n).movable.active
    decreases n
  {
    var reach := Reach(p.movable, delta);
    var q := MoveStep(p, delta, distance);
    var d := Remaining(p, delta, distance);
    if distance <= reach {
      AtRestStaysPut(q, delta, d, n - 1);
    } else {
      assert (n - 1) as real * reach == n as real * reach - reach;
      assert n - 1 >= 1;
      ArrivalConvergence(q, delta, d, n - 1);
    }
  }

  /** `move_movable`: one tick over every pointer, given each one's distance to its target. */
  function MoveMovables(store: Store, delta: real, distances: seq<real>): (r: Store)
    requires delta >= 0.0
    requires |distances| == |store|
    requires forall i :: 0 <= i < |store| ==> IsDistance(distances[i], store[i].location, store[i].movable.targetLocation)
    ensures |r| == |store|
    ensures forall i :: 0 <= i < |store| ==> r[i] == MoveStep(store[i], delta, distances[i])
    decreases |store|
  {
    if store == [] then []
    else [MoveStep(store[0], delta, distances[0])] + MoveMovables(store[1..], delta, distances[1..])
  }

  /** The number of pointers still heading for their target. */
  function ActiveCount(store: Store): nat
    decreases |store|
  {
    if store == [] then 0
    else (if store[0].movable.active then 1 else 0) + ActiveCount(store[1..])
  }

  /** A tick never sets a pointer moving: only commands do. */
  lemma {:induction false} MoveMovablesNeverActivates(store: Store, delta: real, distances: seq<real>)
    requires delta >= 0.0
    requires |distances| == |store|
    requires forall i :: 0 <= i < |store| ==> IsDistance(distances[i], store[i].location, store[i].movable.targetLocation)
    ensures ActiveCount(MoveMovables(store, delta, distances)) <= ActiveCount(store)
    decreases |store|
  {
    if store != [] {
      MoveMovablesNeverActivates(store[1..], delta, distances[1..]);
      var r := MoveMovables(store, delta, distances);
      assert r[1..] == MoveMovables(store[1..], delta, distances[1..]);
    }
  }
}
