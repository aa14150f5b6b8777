/** The game objects the world holds, reduced to the attributes the world reads or
    changes, and the behaviour of their own classes (PlayerShip, EnemyShip, Missile,
    SpaceStation) that the world relies on. Those classes are not part of this model:
    the functions at the end of this module are the assumed contracts of their calls. */
module Entities {

  /** A position in the plane (GameWorld keeps it in floating point). */
  datatype Point = Point(x: real, y: real)

  /** Who fired a missile. */
  datatype MissileType = FromPlayer | FromEnemy

  /** The part of a player or enemy ship that the world uses. Angles are in degrees. */
  datatype Ship = Ship(location: Point, speed: int, heading: int, launcherDir: int, missiles: int)

  /** One variant per concrete game-object class the world distinguishes. */
  datatype Kind =
    | PlayerShip(ship: Ship)
    | EnemyShip(ship: Ship)
    | Asteroid(location: Point, speed: int, heading: int)
    | Missile(owner: MissileType, location: Point, direction: int, speed: int, fuel: int)
    | SpaceStation(location: Point, blinkTime: int)

  /** A game object with its identity: GameWorld compares and removes objects by
      reference, which the model represents by a unique `id`. */
  datatype Entity = Entity(id: nat, kind: Kind)

  /** The missile count a player ship starts with and reloads to. */
  const MaxPlayerMissiles: int := 10
  /** A missile leaves the launcher this much faster than the ship firing it. */
  const MissileSpeedBonus: int := 2
  /** The fuel a new missile carries, in frames. */
  const MissileFuel: int := 10
  /** Where a player ship starts and where a hyperspace jump returns it. */
  const Origin: Point := Point(0.0, 0.0)
  /** A freshly constructed player ship. */
  const NewPlayerShip: Ship := Ship(Origin, 0, 0, 0, MaxPlayerMissiles)

  /** Ships and asteroids and missiles move each frame; a station does not. */
  predicate Moveable(k: Kind) {
    !k.SpaceStation?
  }

  predicate IsShip(k: Kind) {
    k.PlayerShip? || k.EnemyShip?
  }

  /** The attribute ranges every object in the world keeps. */
  predicate WellFormed(k: Kind) {
    match k
    case PlayerShip(s) => 0 <= s.heading < 360 && 0 <= s.launcherDir < 360 && 0 <= s.missiles
    case EnemyShip(s) => 0 <= s.heading < 360 && 0 <= s.launcherDir < 360 && 0 <= s.missiles
    case Asteroid(_, _, _) => true
    case Missile(_, _, _, _, fuel) => 0 < fuel
    case SpaceStation(_, _) => true
  }

  /** An angle plus a turn, brought back into 0..359. */
  function TurnAngle(angle: int, amount: int): (r: int)
    ensures 0 <= r < 360
    ensures 0 <= angle + amount < 360 ==> r == angle + amount
    ensures angle + amount == -1 ==> r == 359
    ensures angle + amount == 360 ==> r == 0
  {
    (angle + amount) % 360
  }

  /** PlayerShip.Steer: turns the heading by `amount` degrees and changes nothing else. */
  function Steer(s: Ship, amount: int): Ship {
    s.(heading := TurnAngle(s.heading, amount))
  }

  /** PlayerShip.ChangeLauncherDir: turns the launcher by `amount` degrees. */
  function ChangeLauncherDir(s: Ship, amount: int): Ship {
    s.(launcherDir := TurnAngle(s.launcherDir, amount))
  }

  /** PlayerShip.AdjustSpeed: one unit faster or slower. */
  function AdjustSpeed(s: Ship, speedUp: bool): Ship {
    s.(speed := if speedUp then s.speed + 1 else s.speed - 1)
  }

  /** PlayerShip.ResetPosition: back to the origin. */
  function ResetPosition(s: Ship): Ship {
    s.(location := Origin)
  }

  /** Ship.Fire: one missile fewer. */
  function Fire(s: Ship): Ship {
    s.(missiles := s.missiles - 1)
  }

  /** PlayerShip.Reload: a full launcher again. */
  function Reload(s: Ship): Ship {
    s.(missiles := MaxPlayerMissiles)
  }

  /** The missile a ship launches: from the ship's location, along its launcher,
      faster than the ship by the bonus, with a full tank. */
  function Launch(s: Ship, owner: MissileType): Kind {
    Missile(owner, s.location, s.launcherDir, s.speed + MissileSpeedBonus, MissileFuel)
  }

  /** IMoveable.Move: the new position comes from `travel` (the movement geometry);
      a missile also burns one unit of fuel. A station is returned as it is. */
  function Move(e: Entity, travel: Entity -> Point): Entity {
    match e.kind
    case PlayerShip(s) => Entity(e.id, PlayerShip(s.(location := travel(e))))
    case EnemyShip(s) => Entity(e.id, EnemyShip(s.(location := travel(e))))
    case Asteroid(_, speed, heading) => Entity(e.id, Asteroid(travel(e), speed, heading))
    case Missile(owner, _, dir, speed, fuel) => Entity(e.id, Missile(owner, travel(e), dir, speed, fuel - 1))
    case SpaceStation(_, _) => e
  }

  /** SpaceStation.IncreaseBlinkTime. */
  function IncreaseBlinkTime(e: Entity): Entity
    requires e.kind.SpaceStation?
  {
    Entity(e.id, e.kind.(blinkTime := e.kind.blinkTime + 1))
  }

  /** A missile whose fuel has run out. */
  predicate Exhausted(e: Entity) {
    e.kind.Missile? && e.kind.fuel == 0
  }

  /** What one frame does to one object before the exhausted-missile check. */
  function Step(e: Entity, travel: Entity -> Point): (r: Entity)
    ensures r.id == e.id
    ensures Moveable(e.kind) == Moveable(r.kind) && r.kind.Missile? == e.kind.Missile?
    ensures r.kind.PlayerShip? == e.kind.PlayerShip? && r.kind.EnemyShip? == e.kind.EnemyShip?
    ensures r.kind.Asteroid? == e.kind.Asteroid? && r.kind.SpaceStation? == e.kind.SpaceStation?
    ensures e.kind.Missile? ==> r.kind.Missile? && r.kind.fuel == e.kind.fuel - 1 && r.kind.owner == e.kind.owner
    ensures e.kind.SpaceStation? ==> r.kind == e.kind.(blinkTime := e.kind.blinkTime + 1)
    ensures WellFormed(e.kind) && !Exhausted(r) ==> WellFormed(r.kind)
  {
    if Moveable(e.kind) then Move(e, travel)
    else if e.kind.SpaceStation? then IncreaseBlinkTime(e)
    else e
  }
}
