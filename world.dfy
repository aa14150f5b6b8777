/** The game world: the entity store, the score, the frame clock and the lives
    counter with its game-over latch, and the operations the game's commands
    call on them (GameWorld.java). */
module World {
  import opened Entities
  import opened Store
  import opened Frame

  /** The kinds of object a caller can name when asking for a kill or a collision. */
  datatype EntityType = PlayerEntity | AsteroidEntity | EnemyEntity | MissileEntity

  /** The lives counter together with the game-over flag. */
  datatype Lives = Lives(left: int, over: bool)

  const StartingLives: int := 3
  const AsteroidBounty: int := 10
  const EnemyBounty: int := 20

  // ---------------------------------------------------------------- lives

  /** One life lost: the counter drops, and the game is over once it reaches zero
      (and stays over). There is no guard: the counter can go below zero. */
  function LoseLife(l: Lives): (r: Lives)
    ensures r.left == l.left - 1
    ensures l.over ==> r.over
    ensures !l.over ==> (r.over <==> l.left == 1)
  {
    var left := l.left - 1;
    Lives(left, l.over || left == 0)
  }

  ghost function LoseLives(l: Lives, k: nat): Lives {
    if k == 0 then l else LoseLife(LoseLives(l, k - 1))
  }

  /** From n > 0 lives and a game in progress, k losses leave n - k lives (possibly
      negative) and the game is over exactly when k >= n. */
  lemma {:induction false} GameOverAfterExactly(n: int, k: nat)
    requires n > 0
    ensures LoseLives(Lives(n, false), k).left == n - k
    ensures LoseLives(Lives(n, false), k).over <==> k >= n
  {
    if k > 0 {
      GameOverAfterExactly(n, k - 1);
    }
  }

  /** Once over, the game stays over whatever further losses happen. */
  lemma {:induction false} GameOverLatches(l: Lives, k: nat)
    requires l.over
    ensures LoseLives(l, k).over
  {
    if k > 0 {
      GameOverLatches(l, k - 1);
    }
  }

  /** The game starts with three lives: it is still on after one and two losses
      and over after the third, with no lives left. */
  lemma ThreeLives()
    ensures !LoseLives(Lives(StartingLives, false), 1).over
    ensures !LoseLives(Lives(StartingLives, false), 2).over
    ensures LoseLives(Lives(StartingLives, false), 3) == Lives(0, true)
  {
    GameOverAfterExactly(StartingLives, 1);
    GameOverAfterExactly(StartingLives, 2);
    GameOverAfterExactly(StartingLives, 3);
  }

  // ---------------------------------------------------------------- ships

  /** The store with the ship of the object at index i replaced, keeping its
      identity and whether it is the player's or an enemy's. */
  function WithShip(s: seq<Entity>, i: nat, ship: Ship): (r: seq<Entity>)
    requires i < |s| && IsShip(s[i].kind)
  {
    s[i := Entity(s[i].id, s[i].kind.(ship := ship))]
  }

  lemma WithShipKeepsInvariant(s: seq<Entity>, i: nat, ship: Ship, next: nat)
    requires i < |s| && IsShip(s[i].kind)
    requires UniqueIds(s) && IdsBelow(s, next) && AllWellFormed(s)
    requires WellFormed(s[i].kind.(ship := ship))
    ensures var r := WithShip(s, i, ship);
      UniqueIds(r) && IdsBelow(r, next) && AllWellFormed(r)
  {
  }

  /** The ship at index i fires: its count drops by one and exactly one new
      missile, owned by the side of that ship, is appended, leaving from the
      ship's location along its launcher, two faster than the ship, fully fuelled.
      Nothing else in the store changes. */
  function Fired(s: seq<Entity>, i: nat, id: nat): (r: seq<Entity>)
    requires i < |s| && IsShip(s[i].kind)
    ensures |r| == |s| + 1
    ensures forall j :: 0 <= j < |s| && j != i ==> r[j] == s[j]
    ensures r[i].id == s[i].id && r[i].kind.PlayerShip? == s[i].kind.PlayerShip? && IsShip(r[i].kind)
    ensures r[i].kind.ship == s[i].kind.ship.(missiles := s[i].kind.ship.missiles - 1)
    ensures var m := r[|s|];
      && m.id == id
      && m.kind.Missile?
      && m.kind.owner == (if s[i].kind.PlayerShip? then FromPlayer else FromEnemy)
      && m.kind.location == s[i].kind.ship.location
      && m.kind.direction == s[i].kind.ship.launcherDir
      && m.kind.speed == s[i].kind.ship.speed + 2
      && m.kind.fuel == MissileFuel
  {
    var ship := s[i].kind.ship;
    var owner := if s[i].kind.PlayerShip? then FromPlayer else FromEnemy;
    WithShip(s, i, Fire(ship)) + [Entity(id, Launch(ship, owner))]
  }

  /** A missile fired from a ship is in the store for exactly MissileFuel frames
      and then gone, while the ship that fired it stays. */
  lemma FiredMissileLifetime(s: seq<Entity>, i: nat, id: nat, travel: Entity -> Point)
    requires i < |s| && IsShip(s[i].kind) && IdsBelow(s, id)
    ensures var r := Fired(s, i, id);
      && (forall n: nat :: n < MissileFuel ==> HasId(AdvanceN(r, travel, n), id))
      && !HasId(AdvanceN(r, travel, MissileFuel), id)
      && HasShip(AdvanceN(r, travel, MissileFuel), s[i].id, s[i].kind.PlayerShip?)
  {
    var r := Fired(s, i, id);
    assert r[|s|].id == id;
    forall j | 0 <= j < |r| && r[j].id == id ensures j == |s| {
    }
    MissileLifetime(r, travel, id, MissileFuel);
    assert r[i].id == s[i].id && IsShip(r[i].kind) && r[i].kind.PlayerShip? == s[i].kind.PlayerShip?;
    ShipStays(r, travel, s[i].id, s[i].kind.PlayerShip?, MissileFuel);
  }

  // ---------------------------------------------------------------- spawning

  /** The store after SpawnPlayer: a new player ship is appended unless the game
      is on and a player ship is already there. */
  ghost function SpawnPlayerResult(s: seq<Entity>, over: bool, id: nat): seq<Entity> {
    if !over && Contains(s, AnyPlayer) then s else s + [Entity(id, PlayerShip(NewPlayerShip))]
  }

  /** While the game is on, spawning leaves exactly one player ship when there
      was at most one: none is added next to an existing one. */
  lemma SpawnPlayerKeepsOnePlayer(s: seq<Entity>, id: nat)
    requires Count(s, AnyPlayer) <= 1
    ensures Count(SpawnPlayerResult(s, false, id), AnyPlayer) == 1
    ensures Contains(s, AnyPlayer) ==> SpawnPlayerResult(s, false, id) == s
  {
    CountContains(s, AnyPlayer);
    CountSnoc(s, AnyPlayer, Entity(id, PlayerShip(NewPlayerShip)));
  }

  /** After game over the one-player check is off: spawning always appends a
      player ship, even next to an existing one. */
  lemma SpawnPlayerAfterGameOver(s: seq<Entity>, id: nat)
    ensures SpawnPlayerResult(s, true, id) == s + [Entity(id, PlayerShip(NewPlayerShip))]
    ensures Count(SpawnPlayerResult(s, true, id), AnyPlayer) == Count(s, AnyPlayer) + 1
  {
    CountSnoc(s, AnyPlayer, Entity(id, PlayerShip(NewPlayerShip)));
  }

  // ---------------------------------------------------------------- kills

  /** What DestroyEnemy looks for, and what a kill of it is worth. */
  function TargetQuery(t: EntityType): Option<Query> {
    match t
    case AsteroidEntity => Some(AnyAsteroid)
    case EnemyEntity => Some(AnyEnemy)
    case _ => None
  }

  function Bounty(t: EntityType): int {
    match t
    case AsteroidEntity => AsteroidBounty
    case EnemyEntity => EnemyBounty
    case _ => 0
  }

  /** A first-match lookup for an optional query. */
  function Lookup(s: seq<Entity>, q: Option<Query>): Option<nat> {
    match q
    case None => None
    case Some(q) => FirstMatch(s, q)
  }

  /** The player missile and the target DestroyEnemy removes, as indices. */
  ghost function DestroyPair(s: seq<Entity>, t: EntityType): Option<(nat, nat)> {
    match FirstMatch(s, MissileOf(FromPlayer))
    case None => None
    case Some(m) =>
      match Lookup(s, TargetQuery(t))
      case None => None
      case Some(k) => Some((m, k))
  }

  ghost function DestroyStore(s: seq<Entity>, t: EntityType): seq<Entity> {
    match DestroyPair(s, t)
    case None => s
    case Some((m, k)) =>
      assert m < |s| && k < |s|;
      RemoveId(RemoveId(s, s[m].id), s[k].id)
  }

  /** The score is credited whenever a player missile exists, target or not. */
  ghost function DestroyScore(s: seq<Entity>, t: EntityType, score: int): int {
    if FirstMatch(s, MissileOf(FromPlayer)).Some? then score + Bounty(t) else score
  }

  /** Without a player missile, DestroyEnemy changes neither the store nor the score. */
  lemma DestroyWithoutMissile(s: seq<Entity>, t: EntityType, score: int)
    requires !Contains(s, MissileOf(FromPlayer))
    ensures DestroyStore(s, t) == s && DestroyScore(s, t, score) == score
  {
  }

  /** With a player missile and a target of the requested kind, DestroyEnemy
      removes that missile and the first such target, exactly those two, and
      credits 10 for an asteroid or 20 for an enemy ship. */
  lemma DestroyRemovesPair(s: seq<Entity>, t: EntityType, score: int)
    requires UniqueIds(s)
    requires Contains(s, MissileOf(FromPlayer))
    requires TargetQuery(t).Some? && Contains(s, TargetQuery(t).value)
    ensures DestroyPair(s, t).Some?
    ensures var (m, k) := DestroyPair(s, t).value;
      && m < |s| && k < |s|
      && s[m].kind.Missile? && s[m].kind.owner == FromPlayer
      && (forall j :: 0 <= j < m ==> !Matches(MissileOf(FromPlayer), s[j]))
      && Matches(TargetQuery(t).value, s[k])
      && (forall j :: 0 <= j < k ==> !Matches(TargetQuery(t).value, s[j]))
      && |DestroyStore(s, t)| == |s| - 2
      && (forall x :: x in DestroyStore(s, t) <==> x in s && x != s[m] && x != s[k])
    ensures DestroyScore(s, t, score) == score + (if t == AsteroidEntity then 10 else 20)
  {
    var m := FirstMatch(s, MissileOf(FromPlayer)).value;
    var k := FirstMatch(s, TargetQuery(t).value).value;
    RemovePair(s, m, k);
  }

  /** The score goes up even when there is nothing of the requested kind to hit;
      the store then stays as it is. */
  lemma DestroyScoresWithoutTarget(s: seq<Entity>, t: EntityType, score: int)
    requires Contains(s, MissileOf(FromPlayer))
    requires TargetQuery(t).Some? && !Contains(s, TargetQuery(t).value)
    ensures DestroyStore(s, t) == s
    ensures DestroyScore(s, t, score) == score + Bounty(t) > score
  {
  }

  /** The player ship and the enemy missile KillPlayerWithEnemyMissile removes. */
  ghost function KillPair(s: seq<Entity>): Option<(nat, nat)> {
    match FirstMatch(s, MissileOf(FromEnemy))
    case None => None
    case Some(m) =>
      match FirstMatch(s, AnyPlayer)
      case None => None
      case Some(p) => Some((p, m))
  }

  /** An enemy missile and a player ship are both needed; then exactly those two go. */
  lemma KillRemovesPair(s: seq<Entity>)
    requires UniqueIds(s)
    ensures KillPair(s).Some? <==> Contains(s, MissileOf(FromEnemy)) && Contains(s, AnyPlayer)
    ensures KillPair(s).Some? ==> var (p, m) := KillPair(s).value;
      && s[p].kind.PlayerShip? && s[m].kind.Missile? && s[m].kind.owner == FromEnemy
      && (forall j :: 0 <= j < p ==> !s[j].kind.PlayerShip?)
      && (forall j :: 0 <= j < m ==> !Matches(MissileOf(FromEnemy), s[j]))
      && var r := RemoveId(RemoveId(s, s[p].id), s[m].id);
      && |r| == |s| - 2
      && (forall x :: x in r <==> x in s && x != s[p] && x != s[m])
  {
    if KillPair(s).Some? {
      var (p, m) := KillPair(s).value;
      RemovePair(s, p, m);
    }
  }

  // ---------------------------------------------------------------- collisions

  /** What the first side of a collision names: the player or an asteroid. */
  function FirstQuery(t: EntityType): Option<Query> {
    match t
    case PlayerEntity => Some(AnyPlayer)
    case AsteroidEntity => Some(AnyAsteroid)
    case _ => None
  }

  /** What the second side names, given the object resolved for the first: an
      asteroid other than that object, or an enemy ship. */
  function SecondQuery(t: EntityType, firstId: nat): Option<Query> {
    match t
    case AsteroidEntity => Some(AsteroidOtherThan(firstId))
    case EnemyEntity => Some(AnyEnemy)
    case _ => None
  }

  /** The two objects a collision resolves to, as indices, if both sides resolve. */
  ghost function CollisionPair(s: seq<Entity>, one: EntityType, two: EntityType): Option<(nat, nat)> {
    match Lookup(s, FirstQuery(one))
    case None => None
    case Some(i) =>
      match Lookup(s, SecondQuery(two, s[i].id))
      case None => None
      case Some(j) => Some((i, j))
  }

  /** A resolved collision names two distinct objects, the first of which is a
      player ship exactly when the first side was PLAYER, and removing them takes
      exactly those two out of the store. */
  lemma CollisionRemovesPair(s: seq<Entity>, one: EntityType, two: EntityType)
    requires UniqueIds(s)
    requires CollisionPair(s, one, two).Some?
    ensures var (i, j) := CollisionPair(s, one, two).value;
      && i < |s| && j < |s| && i != j
      && (s[i].kind.PlayerShip? <==> one == PlayerEntity)
      && var r := RemoveId(RemoveId(s, s[i].id), s[j].id);
      && |r| == |s| - 2
      && (forall x :: x in r <==> x in s && x != s[i] && x != s[j])
  {
    var (i, j) := CollisionPair(s, one, two).value;
    RemovePair(s, i, j);
  }

  /** In an asteroid-asteroid collision the second object is the first asteroid
      in store order that is not the first object. */
  lemma SecondAsteroidIsNextOther(s: seq<Entity>)
    requires UniqueIds(s)
    requires CollisionPair(s, AsteroidEntity, AsteroidEntity).Some?
    ensures var (i, j) := CollisionPair(s, AsteroidEntity, AsteroidEntity).value;
      && s[i].kind.Asteroid? && s[j].kind.Asteroid? && i < j
      && (forall k :: 0 <= k < j && k != i ==> !s[k].kind.Asteroid?)
  {
    var (i, j) := CollisionPair(s, AsteroidEntity, AsteroidEntity).value;
    forall k | 0 <= k < j && k != i ensures !s[k].kind.Asteroid? {
      assert !Matches(AsteroidOtherThan(s[i].id), s[k]);
    }
  }

  /** With a single asteroid there is no asteroid-asteroid collision: an
      asteroid never collides with itself. */
  lemma NoSelfCollision(s: seq<Entity>)
    requires Count(s, AnyAsteroid) == 1
    ensures CollisionPair(s, AsteroidEntity, AsteroidEntity) == None
  {
    var first := FirstMatch(s, AnyAsteroid);
    if first.Some? {
      CountOneNoOther(s, first.value);
    }
  }

  /** With two distinct asteroids an asteroid-asteroid collision resolves. */
  lemma TwoAsteroidsCollide(s: seq<Entity>, a: nat, b: nat)
    requires UniqueIds(s)
    requires a < b < |s| && s[a].kind.Asteroid? && s[b].kind.Asteroid?
    ensures CollisionPair(s, AsteroidEntity, AsteroidEntity).Some?
  {
    var i := FirstMatch(s, AnyAsteroid).value;
    var other := if i == a then b else a;
    assert Matches(AsteroidOtherThan(s[i].id), s[other]);
  }

  // ---------------------------------------------------------------- the world

  class GameWorld {
    /** The entity store, in spawn order. */
    var entities: seq<Entity>
    var score: int
    var elapsedTime: int
    var playerLives: int
    var gameOver: bool
    /** The identity the next spawned object receives (standing for GameWorld's freshly constructed object). */
    var nextId: nat

    /** Identities are unique and already handed out; every object is within its
        attribute ranges (headings in 0..359, no missile without fuel). */
    ghost predicate Valid()
      reads this
    {
      UniqueIds(entities) && IdsBelow(entities, nextId) && AllWellFormed(entities)
    }

    function LivesState(): Lives
      reads this
    {
      Lives(playerLives, gameOver)
    }

    /** A world as the game creates it: constructed, then initialised. */
    constructor ()
      ensures Valid()
      ensures entities == [] && score == 0 && elapsedTime == 0
      ensures playerLives == StartingLives && !gameOver
    {
      new;
      Init();
    }

    /** A fresh game: empty store, no score, no time, three lives, not over. */
    method Init()
      modifies this`entities, this`score, this`elapsedTime, this`playerLives, this`gameOver
      ensures Valid()
      ensures entities == [] && score == 0 && elapsedTime == 0
      ensures playerLives == StartingLives && !gameOver
    {
      entities := [];
      score := 0;
      elapsedTime := 0;
      playerLives := StartingLives;
      gameOver := false;
    }

    /** The store's add: appends a new object with a fresh identity. */
    method Add(k: Kind)
      requires Valid() && WellFormed(k)
      modifies this`entities, this`nextId
      ensures Valid()
      ensures entities == old(entities) + [Entity(old(nextId), k)] && nextId == old(nextId) + 1
    {
      entities := entities + [Entity(nextId, k)];
      nextId := nextId + 1;
    }

    /** The private lookups: the index of the first object in store order that
        the query matches, or None. */
    method Find(q: Query) returns (r: Option<nat>)
      ensures r == FirstMatch(entities, q)
    {
      var i := 0;
      while i < |entities|
        invariant 0 <= i <= |entities|
        invariant forall j :: 0 <= j < i ==> !Matches(q, entities[j])
      {
        if Matches(q, entities[i]) {
          return Some(i);
        }
        i := i + 1;
      }
      return None;
    }

    /** True exactly when the game is not over and a player ship is in the store. */
    method FindInstanceOfPlayer() returns (r: bool)
      ensures r == (!gameOver && Contains(entities, AnyPlayer))
    {
      if |entities| > 0 && !gameOver {
        var i := 0;
        while i < |entities|
          invariant 0 <= i <= |entities|
          invariant forall j :: 0 <= j < i ==> !entities[j].kind.PlayerShip?
        {
          if entities[i].kind.PlayerShip? {
            return true;
          }
          i := i + 1;
        }
      }
      return false;
    }

    method SpawnAsteroid(location: Point, speed: int, heading: int)
      requires Valid()
      modifies this`entities, this`nextId
      ensures Valid()
      ensures entities == old(entities) + [Entity(old(nextId), Asteroid(location, speed, heading))]
    {
      Add(Asteroid(location, speed, heading));
    }

    method SpawnEnemy(ship: Ship)
      requires Valid() && WellFormed(EnemyShip(ship))
      modifies this`entities, this`nextId
      ensures Valid()
      ensures entities == old(entities) + [Entity(old(nextId), EnemyShip(ship))]
    {
      Add(EnemyShip(ship));
    }

    method SpawnStation(location: Point, blinkTime: int)
      requires Valid()
      modifies this`entities, this`nextId
      ensures Valid()
      ensures entities == old(entities) + [Entity(old(nextId), SpaceStation(location, blinkTime))]
    {
      Add(SpaceStation(location, blinkTime));
    }

    /** Appends a new player ship unless the game is on and one is already there. */
    method SpawnPlayer()
      requires Valid()
      modifies this`entities, this`nextId
      ensures Valid()
      ensures entities == SpawnPlayerResult(old(entities), gameOver, old(nextId))
    {
      var present := FindInstanceOfPlayer();
      if !present {
        Add(PlayerShip(NewPlayerShip));
      }
    }

    /** One unit faster or slower, if there is a player ship. */
    method ChangeSpeed(speedUp: bool)
      requires Valid()
      modifies this`entities
      ensures Valid()
      ensures match FirstMatch(old(entities), AnyPlayer)
        case None => entities == old(entities)
        case Some(i) => entities == WithShip(old(entities), i, AdjustSpeed(old(entities)[i].kind.ship, speedUp))
    {
      var player := Find(AnyPlayer);
      if player.Some? {
        var i := player.value;
        WithShipKeepsInvariant(entities, i, AdjustSpeed(entities[i].kind.ship, speedUp), nextId);
        entities := WithShip(entities, i, AdjustSpeed(entities[i].kind.ship, speedUp));
      }
    }

    /** Turns the player ship one degree right (clockwise) or left, keeping the
        heading in 0..359; without a player ship nothing changes. */
    method TurnPlayer(turnRight: bool)
      requires Valid()
      modifies this`entities
      ensures Valid()
      ensures match FirstMatch(old(entities), AnyPlayer)
        case None => entities == old(entities)
        case Some(i) =>
          var ship := old(entities)[i].kind.ship;
          var heading := if turnRight then (if ship.heading == 359 then 0 else ship.heading + 1)
                         else (if ship.heading == 0 then 359 else ship.heading - 1);
          entities == WithShip(old(entities), i, ship.(heading := heading))
    {
      var player := Find(AnyPlayer);
      if player.Some? {
        var i := player.value;
        var ship := entities[i].kind.ship;
        var turned := if turnRight then Steer(ship, 1) else Steer(ship, -1);
        WithShipKeepsInvariant(entities, i, turned, nextId);
        entities := WithShip(entities, i, turned);
      }
    }

    /** Turns the player's launcher one degree; GameWorld dereferences the
        lookup without a check, so a player ship must be present. */
    method RotateLauncher()
      requires Valid() && Contains(entities, AnyPlayer)
      modifies this`entities
      ensures Valid()
      ensures var i := FirstMatch(old(entities), AnyPlayer).value;
        entities == WithShip(old(entities), i, ChangeLauncherDir(old(entities)[i].kind.ship, 1))
    {
      var player := Find(AnyPlayer);
      var i := player.value;
      WithShipKeepsInvariant(entities, i, ChangeLauncherDir(entities[i].kind.ship, 1), nextId);
      entities := WithShip(entities, i, ChangeLauncherDir(entities[i].kind.ship, 1));
    }

    /** Hyperspace jump: the player ship back to the origin; as with
        RotateLauncher, a player ship must be present. */
    method ResetPosition()
      requires Valid() && Contains(entities, AnyPlayer)
      modifies this`entities
      ensures Valid()
      ensures var i := FirstMatch(old(entities), AnyPlayer).value;
        entities == WithShip(old(entities), i, old(entities)[i].kind.ship.(location := Origin))
    {
      var player := Find(AnyPlayer);
      var i := player.value;
      WithShipKeepsInvariant(entities, i, Entities.ResetPosition(entities[i].kind.ship), nextId);
      entities := WithShip(entities, i, Entities.ResetPosition(entities[i].kind.ship));
    }

    /** Fires from the player ship if it has a missile left: the store gains
        exactly that missile and the ship's count drops by one. With no player,
        or none left, nothing changes. */
    method FirePlayerMissile()
      requires Valid()
      modifies this`entities, this`nextId
      ensures Valid()
      ensures match FirstMatch(old(entities), AnyPlayer)
        case None => entities == old(entities)
        case Some(i) =>
          if old(entities)[i].kind.ship.missiles > 0
          then entities == Fired(old(entities), i, old(nextId))
          else entities == old(entities)
    {
      var player := Find(AnyPlayer);
      if player.Some? {
        var i := player.value;
        if entities[i].kind.ship.missiles > 0 {
          FireKeepsInvariant(entities, i, nextId);
          entities := Fired(entities, i, nextId);
          nextId := nextId + 1;
        }
      }
    }

    /** Fires from the first enemy ship in store order that has a missile left;
        with none, nothing changes. */
    method FireEnemymissile()
      requires Valid()
      modifies this`entities, this`nextId
      ensures Valid()
      ensures match FirstMatch(old(entities), ArmedEnemy)
        case None => entities == old(entities)
        case Some(i) => entities == Fired(old(entities), i, old(nextId))
    {
      var enemy := Find(ArmedEnemy);
      if enemy.Some? {
        var i := enemy.value;
        FireKeepsInvariant(entities, i, nextId);
        entities := Fired(entities, i, nextId);
        nextId := nextId + 1;
      }
    }

    /** Refills the player's launcher, only when a station is also present. */
    method ReloadMissiles()
      requires Valid()
      modifies this`entities
      ensures Valid()
      ensures var p := FirstMatch(old(entities), AnyPlayer);
        if p.Some? && Contains(old(entities), AnyStation)
        then entities == WithShip(old(entities), p.value, old(entities)[p.value].kind.ship.(missiles := MaxPlayerMissiles))
        else entities == old(entities)
    {
      var player := Find(AnyPlayer);
      var station := Find(AnyStation);
      if player.Some? && station.Some? {
        var i := player.value;
        WithShipKeepsInvariant(entities, i, Reload(entities[i].kind.ship), nextId);
        entities := WithShip(entities, i, Reload(entities[i].kind.ship));
      }
    }

    /** Destroys the first object of the requested kind with a player missile.
        The bounty is credited as soon as a player missile exists, whether or not
        a target is found. */
    method DestroyEnemy(entity: EntityType)
      requires Valid()
      modifies this`entities, this`score
      ensures Valid()
      ensures entities == DestroyStore(old(entities), entity)
      ensures score == DestroyScore(old(entities), entity, old(score))
    {
      var missile := Find(MissileOf(FromPlayer));
      if missile.Some? {
        var enemy: Option<nat> := None;
        match entity {
          case AsteroidEntity =>
            enemy := Find(AnyAsteroid);
            score := score + AsteroidBounty;
          case EnemyEntity =>
            enemy := Find(AnyEnemy);
            score := score + EnemyBounty;
          case _ =>
        }
        if enemy.Some? {
          RemovePairKeepsInvariant(entities, missile.value, enemy.value, nextId);
          entities := RemoveId(RemoveId(entities, entities[missile.value].id), entities[enemy.value].id);
        }
      }
    }

    /** An enemy missile hits the player ship: both are removed and a life is lost. */
    method KillPlayerWithEnemyMissile()
      requires Valid()
      modifies this`entities, this`playerLives, this`gameOver
      ensures Valid()
      ensures match KillPair(old(entities))
        case None => entities == old(entities) && LivesState() == old(LivesState())
        case Some((p, m)) =>
          && entities == RemoveId(RemoveId(old(entities), old(entities)[p].id), old(entities)[m].id)
          && LivesState() == LoseLife(old(LivesState()))
    {
      var missile := Find(MissileOf(FromEnemy));
      if missile.Some? {
        var player := Find(AnyPlayer);
        if player.Some? {
          RemovePairKeepsInvariant(entities, player.value, missile.value, nextId);
          entities := RemoveId(RemoveId(entities, entities[player.value].id), entities[missile.value].id);
          ReduceLives();
        }
      }
    }

    /** Resolves a collision between the first object named by `entityOne` (the
        player or an asteroid) and the first named by `entityTwo` (an asteroid
        other than the first object, or an enemy ship). When both resolve they
        are removed, and a life is lost if the first was the player ship. */
    method Collision(entityOne: EntityType, entityTwo: EntityType)
      requires Valid()
      modifies this`entities, this`playerLives, this`gameOver
      ensures Valid()
      ensures match CollisionPair(old(entities), entityOne, entityTwo)
        case None => entities == old(entities) && LivesState() == old(LivesState())
        case Some((i, j)) =>
          && entities == RemoveId(RemoveId(old(entities), old(entities)[i].id), old(entities)[j].id)
          && LivesState() == if entityOne == PlayerEntity then LoseLife(old(LivesState())) else old(LivesState())
    {
      var objectOne: Option<nat> := None;
      match entityOne {
        case PlayerEntity => objectOne := Find(AnyPlayer);
        case AsteroidEntity => objectOne := Find(AnyAsteroid);
        case _ =>
      }
      if objectOne.Some? {
        var first := entities[objectOne.value];
        var objectTwo: Option<nat> := None;
        match entityTwo {
          case AsteroidEntity => objectTwo := Find(AsteroidOtherThan(first.id));
          case EnemyEntity => objectTwo := Find(AnyEnemy);
          case _ =>
        }
        if objectTwo.Some? {
          CollisionRemovesPair(entities, entityOne, entityTwo);
          RemovePairKeepsInvariant(entities, objectOne.value, objectTwo.value, nextId);
          entities := RemoveId(RemoveId(entities, first.id), entities[objectTwo.value].id);
          if first.kind.PlayerShip? {
            ReduceLives();
          }
        }
      }
    }

    /** One frame: every object moves (a station blinks instead) in store order,
        a missile that has just burnt its last fuel is removed while the pass goes
        on, and the clock ticks once. */
    method AdvanceGameClock(travel: Entity -> Point)
      requires Valid()
      modifies this`entities, this`elapsedTime
      ensures Valid()
      ensures entities == Advanced(old(entities), travel)
      ensures elapsedTime == old(elapsedTime) + 1
    {
      AdvancedKeepsInvariant(entities, travel, nextId);
      MoveAll(travel);
      elapsedTime := elapsedTime + 1;
    }

    /** The pass of AdvanceGameClock over the store: a cursor walks the objects
        in order, stepping each in place and removing an exhausted missile
        under the cursor without skipping or revisiting any other object. */
    method MoveAll(travel: Entity -> Point)
      modifies this`entities
      ensures entities == Advanced(old(entities), travel)
    {
      ghost var before := entities;
      ghost var k := 0;
      var i := 0;
      while i < |entities|
        invariant k <= |before|
        invariant entities == Advanced(before[..k], travel) + before[k..]
        invariant i == |Advanced(before[..k], travel)|
        decreases |before| - k
      {
        AdvanceOne(before, k, travel);
        var removed := StepAt(i, travel, Advanced(before[..k], travel), before[k], before[k + 1..]);
        if !removed {
          i := i + 1;
        }
        k := k + 1;
      }
      assert before[..k] == before;
    }

    /** The body of the frame loop for the object `x` under the cursor: it moves
        in place (a station blinks instead), and is removed there if it is a
        missile whose fuel has just run out. */
    method StepAt(i: nat, travel: Entity -> Point, ghost done: seq<Entity>, ghost x: Entity, ghost rest: seq<Entity>)
      returns (removed: bool)
      requires entities == done + [x] + rest && i == |done|
      modifies this`entities
      ensures removed == Exhausted(Step(x, travel))
      ensures entities == done + Survivor(x, travel) + rest
    {
      var e := entities[i];
      removed := false;
      if Moveable(e.kind) {
        var moved := Move(e, travel);
        entities := entities[i := moved];
        ReplaceAt(done, e, moved, rest);
        if moved.kind.Missile? && moved.kind.fuel == 0 {
          entities := entities[..i] + entities[i + 1..];
          DropAt(done, moved, rest);
          removed := true;
        }
      } else if e.kind.SpaceStation? {
        entities := entities[i := IncreaseBlinkTime(e)];
        ReplaceAt(done, e, IncreaseBlinkTime(e), rest);
      }
    }

    /** One life lost; game over when none are left. No guard against going below zero. */
    method ReduceLives()
      modifies this`playerLives, this`gameOver
      ensures LivesState() == LoseLife(old(LivesState()))
    {
      playerLives := playerLives - 1;
      if playerLives == 0 {
        gameOver := true;
      }
    }

    /** Whether the game is over. */
    method GameOver() returns (over: bool)
      ensures over == gameOver
    {
      return gameOver;
    }
  }

  /** One more object of the store processed by the frame loop. */
  lemma AdvanceOne(s: seq<Entity>, k: nat, travel: Entity -> Point)
    requires k < |s|
    ensures Advanced(s[..k + 1], travel) == Advanced(s[..k], travel) + Survivor(s[k], travel)
    ensures s[k..] == [s[k]] + s[k + 1..]
  {
    assert s[..k + 1] == s[..k] + [s[k]];
    AdvancedSnoc(s[..k], s[k], travel);
  }

  lemma ReplaceAt(done: seq<Entity>, x: Entity, y: Entity, rest: seq<Entity>)
    ensures (done + [x] + rest)[|done| := y] == done + [y] + rest
  {
  }

  lemma DropAt(done: seq<Entity>, x: Entity, rest: seq<Entity>)
    ensures var s := done + [x] + rest; s[..|done|] + s[|done| + 1..] == done + rest
  {
    var s := done + [x] + rest;
    assert s[..|done|] == done;
    assert s[|done| + 1..] == rest;
  }

  lemma FireKeepsInvariant(s: seq<Entity>, i: nat, next: nat)
    requires i < |s| && IsShip(s[i].kind) && s[i].kind.ship.missiles > 0
    requires UniqueIds(s) && IdsBelow(s, next) && AllWellFormed(s)
    ensures var r := Fired(s, i, next);
      UniqueIds(r) && IdsBelow(r, next + 1) && AllWellFormed(r)
  {
    var r := Fired(s, i, next);
    assert r[..|s|] == WithShip(s, i, Fire(s[i].kind.ship));
  }

  lemma RemovePairKeepsInvariant(s: seq<Entity>, i: nat, j: nat, next: nat)
    requires i < |s| && j < |s| && s[i].id != s[j].id
    requires UniqueIds(s) && IdsBelow(s, next) && AllWellFormed(s)
    ensures var r := RemoveId(RemoveId(s, s[i].id), s[j].id);
      UniqueIds(r) && IdsBelow(r, next) && AllWellFormed(r)
  {
    RemovePair(s, i, j);
    SubStoreKeepsInvariant(s, RemoveId(RemoveId(s, s[i].id), s[j].id), next);
  }
}
