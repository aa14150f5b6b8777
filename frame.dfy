/** One frame of the game clock over the store: every object takes its step in
    store order, and a missile that has just burnt its last fuel is dropped in
    the same pass. These functions specify the loop of AdvanceGameClock. */
module Frame {
  import opened Entities
  import opened Store

  /** What one frame leaves of one object: its stepped self, or nothing for a
      missile that has run out of fuel. */
  function Survivor(e: Entity, travel: Entity -> Point): seq<Entity> {
    var r := Step(e, travel);
    if Exhausted(r) then [] else [r]
  }

  /** The store after one full pass: the pass over all but the last object, with
      the last object's survivor appended, so that it follows the cursor of the
      traversal. */
  function Advanced(s: seq<Entity>, travel: Entity -> Point): (r: seq<Entity>)
    ensures |r| <= |s|
    ensures forall x :: x in r ==> !Exhausted(x)
    decreases |s|
  {
    if s == [] then [] else Advanced(s[..|s| - 1], travel) + Survivor(s[|s| - 1], travel)
  }

  /** The store after `n` frames. */
  ghost function AdvanceN(s: seq<Entity>, travel: Entity -> Point, n: nat): seq<Entity> {
    if n == 0 then s else Advanced(AdvanceN(s, travel, n - 1), travel)
  }

  /** Where the object at index i ends up: after everything that survives before it. */
  function Pos(s: seq<Entity>, travel: Entity -> Point, i: nat): nat
    requires i <= |s|
  {
    |Advanced(s[..i], travel)|
  }

  lemma AdvancedSnoc(s: seq<Entity>, e: Entity, travel: Entity -> Point)
    ensures Advanced(s + [e], travel) == Advanced(s, travel) + Survivor(e, travel)
  {
    assert (s + [e])[..|s|] == s;
  }

  /** Processing a prefix of the store produces a prefix of the full pass. */
  lemma {:induction false} AdvancedPrefix(s: seq<Entity>, travel: Entity -> Point, n: nat)
    requires n <= |s|
    ensures Advanced(s[..n], travel) <= Advanced(s, travel)
    decreases |s|
  {
    if n < |s| {
      var p := s[..|s| - 1];
      assert p[..n] == s[..n];
      AdvancedPrefix(p, travel, n);
    } else {
      assert s[..n] == s;
    }
  }

  /** An object is dropped exactly when it is a missile on its last unit of fuel;
      otherwise its stepped self sits at its position in the result. */
  lemma AdvancedAt(s: seq<Entity>, travel: Entity -> Point, i: nat)
    requires i < |s|
    ensures Exhausted(Step(s[i], travel)) <==> s[i].kind.Missile? && s[i].kind.fuel == 1
    ensures !Exhausted(Step(s[i], travel)) ==>
      Pos(s, travel, i) < |Advanced(s, travel)| && Advanced(s, travel)[Pos(s, travel, i)] == Step(s[i], travel)
  {
    assert s[..i + 1] == s[..i] + [s[i]];
    AdvancedSnoc(s[..i], s[i], travel);
    AdvancedPrefix(s, travel, i + 1);
  }

  /** Objects that survive keep their relative order. */
  lemma AdvancedKeepsOrder(s: seq<Entity>, travel: Entity -> Point, i: nat, j: nat)
    requires i < j < |s|
    requires !Exhausted(Step(s[i], travel)) && !Exhausted(Step(s[j], travel))
    ensures Pos(s, travel, i) < Pos(s, travel, j) < |Advanced(s, travel)|
    ensures Advanced(s, travel)[Pos(s, travel, i)] == Step(s[i], travel)
    ensures Advanced(s, travel)[Pos(s, travel, j)] == Step(s[j], travel)
  {
    AdvancedAt(s, travel, i);
    AdvancedAt(s, travel, j);
    PosAfter(s, travel, i, j);
  }

  /** Everything surviving from index i lies before the position of a later index. */
  lemma PosAfter(s: seq<Entity>, travel: Entity -> Point, i: nat, j: nat)
    requires i < j <= |s|
    ensures Pos(s, travel, i) + |Survivor(s[i], travel)| <= Pos(s, travel, j)
  {
    var t := s[..j];
    assert t[..i + 1] == s[..i + 1];
    assert s[..i + 1] == s[..i] + [s[i]];
    AdvancedSnoc(s[..i], s[i], travel);
    AdvancedPrefix(t, travel, i + 1);
  }

  /** Every object in the result is the stepped self of some object of the store
      that was not dropped. */
  lemma {:induction false} AdvancedFrom(s: seq<Entity>, travel: Entity -> Point)
    ensures forall x :: x in Advanced(s, travel) ==>
      exists i :: 0 <= i < |s| && x == Step(s[i], travel) && !Exhausted(x)
    decreases |s|
  {
    if s != [] {
      var p := s[..|s| - 1];
      AdvancedFrom(p, travel);
      forall x | x in Advanced(s, travel)
        ensures exists i :: 0 <= i < |s| && x == Step(s[i], travel) && !Exhausted(x)
      {
        if x in Advanced(p, travel) {
          var i :| 0 <= i < |p| && x == Step(p[i], travel) && !Exhausted(x);
          assert s[i] == p[i];
        } else {
          assert x == Step(s[|s| - 1], travel);
        }
      }
    }
  }

  /** A station stays and its blink counter goes up by exactly one. */
  lemma StationBlinksOnce(s: seq<Entity>, travel: Entity -> Point, i: nat)
    requires i < |s| && s[i].kind.SpaceStation?
    ensures Pos(s, travel, i) < |Advanced(s, travel)|
    ensures var e := Advanced(s, travel)[Pos(s, travel, i)];
      e.id == s[i].id && e.kind.SpaceStation? && e.kind.location == s[i].kind.location &&
      e.kind.blinkTime == s[i].kind.blinkTime + 1
  {
    AdvancedAt(s, travel, i);
  }

  /** A frame keeps identities unique, within the handed-out range, and every
      object within its attribute ranges (so no missile is left with no fuel). */
  lemma {:induction false} AdvancedKeepsInvariant(s: seq<Entity>, travel: Entity -> Point, next: nat)
    requires UniqueIds(s) && IdsBelow(s, next) && AllWellFormed(s)
    ensures var r := Advanced(s, travel);
      UniqueIds(r) && IdsBelow(r, next) && AllWellFormed(r)
    decreases |s|
  {
    if s != [] {
      var p := s[..|s| - 1];
      var e := s[|s| - 1];
      assert s == p + [e];
      AdvancedKeepsInvariant(p, travel, next);
      AdvancedFrom(p, travel);
      AdvancedFrom(s, travel);
      var r := Advanced(s, travel);
      forall k | 0 <= k < |r| ensures r[k].id < next && WellFormed(r[k].kind) {
        assert r[k] in r;
        var i :| 0 <= i < |s| && r[k] == Step(s[i], travel) && !Exhausted(r[k]);
      }
      var a := Advanced(p, travel);
      forall k | 0 <= k < |a| ensures a[k].id != e.id {
        assert a[k] in a;
        var i :| 0 <= i < |p| && a[k] == Step(p[i], travel) && !Exhausted(a[k]);
        assert s[i] == p[i];
      }
    }
  }

  /** There is an object with identity `id`. */
  ghost predicate HasId(s: seq<Entity>, id: nat) {
    exists i :: 0 <= i < |s| && s[i].id == id
  }

  /** Every object with identity `id` is a missile with `fuel` units left. */
  ghost predicate MissileWithFuel(s: seq<Entity>, id: nat, fuel: int) {
    forall i :: 0 <= i < |s| && s[i].id == id ==> s[i].kind.Missile? && s[i].kind.fuel == fuel
  }

  /** A missile with more than one unit of fuel survives a frame, one unit lighter. */
  lemma OneFrameOlder(s: seq<Entity>, travel: Entity -> Point, id: nat, fuel: int)
    requires HasId(s, id) && MissileWithFuel(s, id, fuel) && fuel > 1
    ensures HasId(Advanced(s, travel), id) && MissileWithFuel(Advanced(s, travel), id, fuel - 1)
  {
    var i :| 0 <= i < |s| && s[i].id == id;
    AdvancedAt(s, travel, i);
    AdvancedFrom(s, travel);
    var r := Advanced(s, travel);
    forall k | 0 <= k < |r| && r[k].id == id ensures r[k].kind.Missile? && r[k].kind.fuel == fuel - 1 {
      assert r[k] in r;
      var j :| 0 <= j < |s| && r[k] == Step(s[j], travel) && !Exhausted(r[k]);
    }
  }

  /** A missile on its last unit of fuel is gone after the frame. */
  lemma LastFrame(s: seq<Entity>, travel: Entity -> Point, id: nat)
    requires MissileWithFuel(s, id, 1)
    ensures !HasId(Advanced(s, travel), id)
  {
    AdvancedFrom(s, travel);
    var r := Advanced(s, travel);
    forall k | 0 <= k < |r| ensures r[k].id != id {
      assert r[k] in r;
      var j :| 0 <= j < |s| && r[k] == Step(s[j], travel) && !Exhausted(r[k]);
    }
  }

  /** Before its fuel runs out, a missile is still there after n frames, with n
      units of fuel burnt. */
  lemma {:induction false} MissileAging(s: seq<Entity>, travel: Entity -> Point, id: nat, fuel: int, n: nat)
    requires HasId(s, id) && MissileWithFuel(s, id, fuel) && n < fuel
    ensures HasId(AdvanceN(s, travel, n), id) && MissileWithFuel(AdvanceN(s, travel, n), id, fuel - n)
  {
    if n > 0 {
      MissileAging(s, travel, id, fuel, n - 1);
      OneFrameOlder(AdvanceN(s, travel, n - 1), travel, id, fuel - (n - 1));
    }
  }

  /** A missile created with fuel F is in the store for exactly F frames: present
      after every n < F frames and gone after the F-th. */
  lemma MissileLifetime(s: seq<Entity>, travel: Entity -> Point, id: nat, fuel: int)
    requires HasId(s, id) && MissileWithFuel(s, id, fuel) && fuel > 0
    ensures forall n: nat :: n < fuel ==> HasId(AdvanceN(s, travel, n), id)
    ensures !HasId(AdvanceN(s, travel, fuel), id)
  {
    forall n: nat | n < fuel ensures HasId(AdvanceN(s, travel, n), id) {
      MissileAging(s, travel, id, fuel, n);
    }
    MissileAging(s, travel, id, fuel, fuel - 1);
    LastFrame(AdvanceN(s, travel, fuel - 1), travel, id);
  }

  /** There is a ship with identity `id`, a player ship exactly when `player`. */
  ghost predicate HasShip(s: seq<Entity>, id: nat, player: bool) {
    exists i :: 0 <= i < |s| && s[i].id == id && IsShip(s[i].kind) && s[i].kind.PlayerShip? == player
  }

  /** A ship is never removed by the clock and stays on its side: a player ship
      is still a player ship, an enemy ship an enemy ship, after any number of frames. */
  lemma {:induction false} ShipStays(s: seq<Entity>, travel: Entity -> Point, id: nat, player: bool, n: nat)
    requires HasShip(s, id, player)
    ensures HasShip(AdvanceN(s, travel, n), id, player)
  {
    if n > 0 {
      ShipStays(s, travel, id, player, n - 1);
      var p := AdvanceN(s, travel, n - 1);
      var i :| 0 <= i < |p| && p[i].id == id && IsShip(p[i].kind) && p[i].kind.PlayerShip? == player;
      AdvancedAt(p, travel, i);
      assert Advanced(p, travel)[Pos(p, travel, i)] == Step(p[i], travel);
    }
  }

  /** There is an object with identity `id` that is not a missile. */
  ghost predicate HasNonMissile(s: seq<Entity>, id: nat) {
    exists i :: 0 <= i < |s| && s[i].id == id && !s[i].kind.Missile?
  }

  /** Only missiles ever leave the store in a frame: ships, asteroids and
      stations are still there after any number of frames. */
  lemma {:induction false} NonMissileStays(s: seq<Entity>, travel: Entity -> Point, id: nat, n: nat)
    requires HasNonMissile(s, id)
    ensures HasNonMissile(AdvanceN(s, travel, n), id)
  {
    if n > 0 {
      NonMissileStays(s, travel, id, n - 1);
      var p := AdvanceN(s, travel, n - 1);
      var i :| 0 <= i < |p| && p[i].id == id && !p[i].kind.Missile?;
      AdvancedAt(p, travel, i);
      assert Advanced(p, travel)[Pos(p, travel, i)] == Step(p[i], travel);
    }
  }
}
