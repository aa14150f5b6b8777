# Asteroids game world, modelled in Dafny

This project models `GameWorld`, the model half of an MVC Asteroids game. The world
holds:

- an insertion-ordered store of game objects: player ship, enemy ships, asteroids,
  missiles and space stations;
- a score;
- a frame clock;
- a lives counter;
- a game-over flag.

Its public operations:

- spawn objects;
- steer, accelerate and fire;
- reload at a station;
- resolve kills and collisions by removing a pair of objects;
- advance the clock by one frame. In a frame every object moves, stations blink, and a
  missile whose fuel runs out is removed in the middle of the pass.

Modules:

- `Entities`: the objects, reduced to the attributes the world reads or changes. Also
  the behaviour the world expects of the object classes (`Steer`, `Fire`, `Reload`,
  `Move`, `IncreaseBlinkTime`). Those classes are not part of this model, so these
  functions are assumed contracts.
- `Store`: first-match lookups in store order (`FirstMatch`), removal by identity
  (`RemoveId`), counting, and the store invariants.
- `Frame`: `Advanced`, the result of one full frame pass over the store, plus lemmas
  about order, removal, station blinking and missile lifetime over many frames.
- `World`: the class `GameWorld`. Its fields `entities`, `score`, `elapsedTime`,
  `playerLives` and `gameOver` are updated in place by its methods. Each method is
  specified against a pure function of the old state (`Fired`, `SpawnPlayerResult`,
  `DestroyStore`, `DestroyScore`, `KillPair`, `CollisionPair`, `Advanced`, `LoseLife`),
  and lemmas state what the game promises about those functions.

The Java program compares and removes objects by reference. The model gives every
object an `id` from a counter `nextId`. The invariant `Valid()` keeps identities
unique and below the counter, and keeps every object within its attribute ranges:
ship headings and launcher directions in 0..359, non-negative ship missile counts,
and no missile without fuel. Asteroid headings are not bounded.

The model follows what the code does, including where that differs from what
GameWorld's own comments suggest:

- `ReduceLives` has no guard. `KillPlayerWithEnemyMissile` and `Collision` do not look
  at the game-over flag, so lives can go below zero and keep dropping after game over.
  The comment on `ReduceLives` (GameWorld.java line 405) speaks of preventing further
  action, but nothing does.
- `FindInstanceOfPlayer` is false whenever the game is over. `SpawnPlayer` after game
  over therefore adds a player ship even when one is already there. The comment on
  `FindInstanceOfPlayer` (line 584) ties the answer to lives not being 0.
- `RotateLauncher` and `ResetPosition` use the lookup result without a null check, so
  the model requires a player ship to be present.
- `DestroyEnemy` adds the bounty as soon as a player missile exists, before it checks
  for a target.

## Model

| member | source | states |
|---|---|---|
| Store.FirstMatch | src/com/mycompany/a2/GameWorld.java:421-581 | A found index is in range and matches the query, and no earlier object matches; None means no object in the store matches |
| World.GameWorld.Find | src/com/mycompany/a2/GameWorld.java:421-581 | The lookup loop (FindPlayer, FindAsteroid, FindEnemy, FindEnemyWithMissiles, FindMissile, FindStation) returns exactly the first matching index in store order, or None |
| World.GameWorld.FindInstanceOfPlayer | src/com/mycompany/a2/GameWorld.java:586-600 | True exactly when the game is not over and some player ship is in the store |
| World.GameWorld.constructor | src/com/mycompany/a2/GameWorld.java:19-28 | A new world has an empty store, score 0, time 0, three lives and the game not over |
| World.GameWorld.Init | src/com/mycompany/a2/GameWorld.java:19-28 | Resets to an empty store, score 0, time 0, three lives, not over; the invariant holds |
| World.GameWorld.Add | src/com/mycompany/a2/GameWorld.java:36 | The collection's add: appends the new object at the end under a fresh identity, keeps the invariant, and changes nothing else |
| World.GameWorld.SpawnAsteroid | src/com/mycompany/a2/GameWorld.java:33-37 | Appends exactly one asteroid with a fresh identity; nothing else changes |
| World.GameWorld.SpawnEnemy | src/com/mycompany/a2/GameWorld.java:42-46 | Appends exactly one enemy ship with a fresh identity; nothing else changes |
| World.GameWorld.SpawnStation | src/com/mycompany/a2/GameWorld.java:67-71 | Appends exactly one space station with a fresh identity; nothing else changes |
| World.GameWorld.SpawnPlayer | src/com/mycompany/a2/GameWorld.java:51-62 | The store is unchanged if the game is on and a player ship is present; otherwise one new default player ship is appended |
| World.SpawnPlayerKeepsOnePlayer | src/com/mycompany/a2/GameWorld.java:51-62 | While the game is on, a store with at most one player ship has exactly one after spawning, and an existing one blocks the spawn |
| World.SpawnPlayerAfterGameOver | src/com/mycompany/a2/GameWorld.java:586-600 | After game over spawning always appends a player ship, so the player count goes up by one even when one was already there |
| World.GameWorld.ChangeSpeed | src/com/mycompany/a2/GameWorld.java:76-83 | The first player ship becomes one unit faster or slower and nothing else changes; without a player ship the store is unchanged |
| Entities.TurnAngle | src/com/mycompany/a2/GameWorld.java:98-100 | A turned angle is always in 0..359, is the plain sum when that is in range, and wraps -1 to 359 and 360 to 0 |
| World.GameWorld.TurnPlayer | src/com/mycompany/a2/GameWorld.java:89-116 | Turning right adds one degree (359 wraps to 0) and turning left subtracts one (0 wraps to 359), only on the first player ship; without one nothing changes |
| World.GameWorld.RotateLauncher | src/com/mycompany/a2/GameWorld.java:121-125 | With a player ship present, its launcher turns one degree and stays in 0..359; nothing else changes |
| World.GameWorld.ResetPosition | src/com/mycompany/a2/GameWorld.java:169-173 | With a player ship present, it is moved to the origin; nothing else changes |
| World.Fired | src/com/mycompany/a2/GameWorld.java:130-164 | Firing appends exactly one missile: its identity is the fresh one, it belongs to the firing ship's side, and it leaves from the ship's location along the launcher at the ship's speed + 2 with full fuel. The firing ship keeps its identity and has one missile fewer; every other object is unchanged |
| World.GameWorld.FirePlayerMissile | src/com/mycompany/a2/GameWorld.java:130-146 | With a player ship holding N > 0 missiles, the store becomes Fired at that ship; with N = 0 or no player ship nothing changes |
| World.GameWorld.FireEnemymissile | src/com/mycompany/a2/GameWorld.java:151-164 | Fires from the first enemy ship in store order that has a missile left (as Fired states); with none, nothing changes |
| World.GameWorld.ReloadMissiles | src/com/mycompany/a2/GameWorld.java:178-184 | The player ship's count is restored to 10 only when both a player ship and a station are present; otherwise nothing changes |
| World.FiredMissileLifetime | src/com/mycompany/a2/GameWorld.java:130-146 | A freshly fired missile is in the store after every n < MissileFuel frames and gone after MissileFuel frames, while the ship that fired it is still there, with its identity and still on its side (a player ship if it was one, else an enemy ship) |
| Store.RemoveId | src/com/mycompany/a2/GameWorld.java:219-221 | Removal by identity (the iterator's remove of an object) never lengthens the store and leaves no object with that identity |
| Store.RemoveIdMembers | src/com/mycompany/a2/GameWorld.java:237-239 | Removal by identity keeps exactly the objects of every other identity |
| Store.RemovePair | src/com/mycompany/a2/GameWorld.java:219-221 | Removing two distinct objects by identity shrinks the store by exactly two, keeps identities unique, and keeps every other object |
| World.DestroyWithoutMissile | src/com/mycompany/a2/GameWorld.java:197-199 | Without a player missile DestroyEnemy changes neither the store nor the score |
| World.DestroyRemovesPair | src/com/mycompany/a2/GameWorld.java:193-224 | With a player missile and a target of the requested kind, the first player missile and the first such target in store order (no earlier player missile, no earlier target) are removed, exactly those two, and the score rises by 10 for an asteroid or 20 for an enemy ship |
| World.DestroyScoresWithoutTarget | src/com/mycompany/a2/GameWorld.java:203-217 | With a player missile but no target of the requested kind, the score still rises by the bounty and the store is unchanged |
| World.GameWorld.DestroyEnemy | src/com/mycompany/a2/GameWorld.java:193-224 | The new store and score are exactly those of DestroyStore and DestroyScore on the old state; the invariant holds |
| World.KillRemovesPair | src/com/mycompany/a2/GameWorld.java:229-244 | A kill resolves exactly when an enemy missile and a player ship are both present. It then names the first of each in store order (no earlier player ship, no earlier enemy missile), and removing them takes exactly those two out |
| World.GameWorld.KillPlayerWithEnemyMissile | src/com/mycompany/a2/GameWorld.java:229-244 | When the kill resolves, player ship and enemy missile are removed and one life is lost; otherwise the store, lives and game-over flag are unchanged |
| World.CollisionRemovesPair | src/com/mycompany/a2/GameWorld.java:255-341 | A resolved collision names two distinct objects. The first is a player ship exactly when the first side was PLAYER, and exactly those two are removed |
| World.SecondAsteroidIsNextOther | src/com/mycompany/a2/GameWorld.java:290-305 | In an asteroid-asteroid collision both objects are asteroids, and the second is the first asteroid in store order other than the first object |
| World.NoSelfCollision | src/com/mycompany/a2/GameWorld.java:290-305 | With a single asteroid an asteroid-asteroid collision does not resolve, so the store is left alone |
| World.TwoAsteroidsCollide | src/com/mycompany/a2/GameWorld.java:290-305 | With two distinct asteroids an asteroid-asteroid collision always resolves |
| Store.CountOneNoOther | src/com/mycompany/a2/GameWorld.java:290-305 | With exactly one asteroid, the search for an asteroid other than it finds nothing |
| World.GameWorld.Collision | src/com/mycompany/a2/GameWorld.java:255-341 | When both sides resolve, the two objects are removed and a life is lost exactly when the first side was PLAYER; otherwise the store and lives are unchanged |
| World.LoseLife | src/com/mycompany/a2/GameWorld.java:409-414 | A lost life lowers the counter by exactly one; a game already over stays over, and a game in progress becomes over exactly when the last life (counter 1) is lost |
| World.GameWorld.ReduceLives | src/com/mycompany/a2/GameWorld.java:407-415 | Lives drop by one, and the game becomes over when they reach zero; an over game stays over |
| World.GameOverAfterExactly | src/com/mycompany/a2/GameWorld.java:407-415 | From n > 0 lives, k losses leave n - k lives (possibly negative), and the game is over exactly when k >= n |
| World.GameOverLatches | src/com/mycompany/a2/GameWorld.java:405-415 | Once the game is over, no sequence of further losses clears the flag |
| World.ThreeLives | src/com/mycompany/a2/GameWorld.java:25-27 | From the starting three lives the game is still on after one and after two losses, and over with zero lives after the third |
| World.GameWorld.GameOver | src/com/mycompany/a2/GameWorld.java:605-609 | Returns the game-over flag and changes nothing |
| Entities.Step | src/com/mycompany/a2/GameWorld.java:367-385 | One object's frame update keeps its identity and its variant: a player ship stays a player ship, an enemy ship an enemy ship, an asteroid an asteroid, a missile a missile (with the same owner), a station a station. A missile loses one unit of fuel, a station's blink counter goes up by one, and attribute ranges are kept unless the missile is exhausted |
| Frame.Advanced | src/com/mycompany/a2/GameWorld.java:365-386 | The store after one frame pass is never longer than before and holds no missile with its fuel run out |
| World.GameWorld.AdvanceGameClock | src/com/mycompany/a2/GameWorld.java:363-388 | The store becomes Advanced of the old store, the clock ticks by exactly one, and the invariant holds |
| World.GameWorld.MoveAll | src/com/mycompany/a2/GameWorld.java:365-386 | The in-place traversal, which removes under the cursor, produces exactly Advanced of the old store, skipping and revisiting nothing |
| World.GameWorld.StepAt | src/com/mycompany/a2/GameWorld.java:367-385 | The object under the cursor is replaced by its stepped self, or removed exactly when it is a missile whose fuel just ran out |
| World.AdvanceOne | src/com/mycompany/a2/GameWorld.java:365-386 | Processing one more object extends the pass by that object's survivor |
| Frame.AdvancedAt | src/com/mycompany/a2/GameWorld.java:372-378 | An object is removed in a frame exactly when it is a missile on its last unit of fuel; otherwise its stepped self is in the result at its position |
| Frame.AdvancedKeepsOrder | src/com/mycompany/a2/GameWorld.java:365-386 | Objects that survive a frame keep their relative order |
| Frame.AdvancedFrom | src/com/mycompany/a2/GameWorld.java:365-386 | Every object after a frame is the stepped self of a surviving object from before: the frame creates nothing |
| Frame.StationBlinksOnce | src/com/mycompany/a2/GameWorld.java:381-385 | A station stays, in place and with its identity, and its blink counter goes up by exactly one per frame |
| Frame.AdvancedKeepsInvariant | src/com/mycompany/a2/GameWorld.java:363-388 | A frame keeps identities unique and already handed out, and leaves no missile without fuel |
| Frame.OneFrameOlder | src/com/mycompany/a2/GameWorld.java:368-378 | A missile with more than one unit of fuel survives a frame with one unit less |
| Frame.LastFrame | src/com/mycompany/a2/GameWorld.java:372-378 | A missile on its last unit of fuel is gone after the frame |
| Frame.MissileAging | src/com/mycompany/a2/GameWorld.java:363-388 | A missile with fuel F is still present after n < F frames, with F - n units left |
| Frame.MissileLifetime | src/com/mycompany/a2/GameWorld.java:363-388 | A missile with fuel F > 0 is removed after exactly F frames: present after each smaller number of frames, gone after F |
| Frame.ShipStays | src/com/mycompany/a2/GameWorld.java:368-380 | A ship is never removed by the clock and stays on its side, whatever the number of frames |
| Frame.NonMissileStays | src/com/mycompany/a2/GameWorld.java:368-385 | Ships, asteroids and stations are never removed by the clock, whatever the number of frames |
| Store.RemoveIdAt | src/com/mycompany/a2/GameWorld.java:219-221 | With unique identities, removal by identity removes exactly the object at that index and keeps the others in order |

## Left out

- Console output is not modelled: the `System.err` and `System.out` diagnostics, `DisplayGameValues` and `PrintMap`. A diagnostic branch is modelled as "no change".
- Observer notification (`Observable`) is not modelled. It is framework plumbing with no effect on the world's state.
- Movement geometry is the `travel` parameter of `AdvanceGameClock`: the new location as a function of the object. The trigonometric, floating-point computation inside `Move` is in classes that are not part of this model. Locations are reals; floating-point rounding is not modelled.
- The classes `PlayerShip`, `EnemyShip`, `Asteroid`, `Missile`, `SpaceStation` and `GameCollection` are not part of this model. Their calls are modelled by the assumed contracts in `Entities`:
  - `AdjustSpeed` is ±1 with no bound;
  - `Steer` and `ChangeLauncherDir` wrap modulo 360;
  - `Fire` removes one missile;
  - `Reload` restores 10;
  - `Move` on a missile burns one unit of fuel;
  - a new missile carries `MissileFuel` = 10 units, and `Frame.MissileLifetime` is stated for any fuel.
- `World.GameWorld.SpawnAsteroid`, `World.GameWorld.SpawnEnemy`, `World.GameWorld.SpawnStation`: the attributes of the new object are parameters, because the constructors that choose them (possibly at random) are not part of this model. A new player ship is taken to start at the origin with speed 0, heading 0, launcher 0 and 10 missiles.
- The iterator of `GameCollection` is not modelled. The store is a sequence, `add` appends, `remove(obj)` removes by identity, and the frame pass's `remove()` removes the object under the cursor.
- Null `EntityType` arguments are not modelled, because Dafny values cannot be null. `Collision` reports a null argument and changes nothing. `DestroyEnemy(null)` with a player missile present throws a NullPointerException at the `switch` (GameWorld.java line 201); the model has no such failure. The `MISSILE` case and the other unhandled cases are modelled as "no change", like GameWorld's default branches.
- Java's 32-bit `int` wrap-around is not modelled: `score`, `elapsedTime`, `playerLives` and missile counts are unbounded integers. The width shows first in `score`: with a player missile present and no enemy ship, every `DestroyEnemy(ENEMY)` adds 20 and removes nothing, so about 1.07·10^8 such calls pass 2^31 − 1.
- The command classes `FirePlayerMissileCmd` and `JumpCmd` are not modelled. Each makes one world call and prints a line.
