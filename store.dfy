/** The entity store: an insertion-ordered sequence of game objects, the
    "first object of a kind in store order" lookups the world performs on it,
    and removal of one object by identity. */
module Store {
  import opened Entities

  datatype Option<T> = None | Some(value: T)

  /** The kinds of object the world looks up. `AsteroidOtherThan` is the search
      for a second asteroid in a collision: any asteroid but the given one. */
  datatype Query =
    | AnyPlayer
    | AnyAsteroid
    | AnyEnemy
    | ArmedEnemy
    | MissileOf(owner: MissileType)
    | AnyStation
    | AsteroidOtherThan(id: nat)

  predicate Matches(q: Query, e: Entity) {
    match q
    case AnyPlayer => e.kind.PlayerShip?
    case AnyAsteroid => e.kind.Asteroid?
    case AnyEnemy => e.kind.EnemyShip?
    case ArmedEnemy => e.kind.EnemyShip? && e.kind.ship.missiles > 0
    case MissileOf(owner) => e.kind.Missile? && e.kind.owner == owner
    case AnyStation => e.kind.SpaceStation?
    case AsteroidOtherThan(id) => e.kind.Asteroid? && e.id != id
  }

  /** There is some object the query matches. */
  ghost predicate Contains(s: seq<Entity>, q: Query) {
    exists i :: 0 <= i < |s| && Matches(q, s[i])
  }

  /** The index of the first object in store order that the query matches. */
  function FirstMatch(s: seq<Entity>, q: Query): (r: Option<nat>)
    ensures r.Some? ==> r.value < |s| && Matches(q, s[r.value])
    ensures r.Some? ==> forall j :: 0 <= j < r.value ==> !Matches(q, s[j])
    ensures r.None? ==> forall j :: 0 <= j < |s| ==> !Matches(q, s[j])
  {
    if s == [] then None
    else if Matches(q, s[0]) then Some(0)
    else match FirstMatch(s[1..], q)
      case None => None
      case Some(i) => Some(i + 1)
  }

  /** How many objects the query matches. */
  function Count(s: seq<Entity>, q: Query): nat {
    if s == [] then 0 else (if Matches(q, s[0]) then 1 else 0) + Count(s[1..], q)
  }

  /** No two objects in the store share an identity. */
  ghost predicate UniqueIds(s: seq<Entity>) {
    forall i, j :: 0 <= i < j < |s| ==> s[i].id != s[j].id
  }

  /** Every object keeps its attribute ranges. */
  ghost predicate AllWellFormed(s: seq<Entity>) {
    forall i :: 0 <= i < |s| ==> WellFormed(s[i].kind)
  }

  /** Every identity in the store was handed out before `next`. */
  ghost predicate IdsBelow(s: seq<Entity>, next: nat) {
    forall i :: 0 <= i < |s| ==> s[i].id < next
  }

  /** The store without the object of identity `id` (the iterator's remove(obj)). */
  function RemoveId(s: seq<Entity>, id: nat): (r: seq<Entity>)
    ensures |r| <= |s|
    ensures forall k :: 0 <= k < |r| ==> r[k].id != id
  {
    if s == [] then []
    else if s[0].id == id then RemoveId(s[1..], id)
    else [s[0]] + RemoveId(s[1..], id)
  }

  /** Removal by identity keeps exactly the objects of other identities. */
  lemma {:induction false} RemoveIdMembers(s: seq<Entity>, id: nat)
    ensures forall x :: x in RemoveId(s, id) <==> x in s && x.id != id
  {
    if s != [] {
      RemoveIdMembers(s[1..], id);
      assert s == [s[0]] + s[1..];
    }
  }

  /** With unique identities, removing the object at index i removes exactly it
      and keeps the others in their order. */
  lemma {:induction false} RemoveIdAt(s: seq<Entity>, i: nat)
    requires UniqueIds(s) && i < |s|
    ensures RemoveId(s, s[i].id) == s[..i] + s[i + 1..]
  {
    if i == 0 {
      RemoveIdAbsent(s[1..], s[0].id);
    } else {
      assert UniqueIds(s[1..]);
      RemoveIdAt(s[1..], i - 1);
      assert s[1..][i - 1].id == s[i].id;
      assert s[..i] == [s[0]] + s[1..][..i - 1];
      assert s[i + 1..] == s[1..][i..];
    }
  }

  lemma {:induction false} RemoveIdAbsent(s: seq<Entity>, id: nat)
    requires forall j :: 0 <= j < |s| ==> s[j].id != id
    ensures RemoveId(s, id) == s
  {
    if s != [] {
      RemoveIdAbsent(s[1..], id);
    }
  }

  lemma UniqueIdsAfterRemove(s: seq<Entity>, i: nat)
    requires UniqueIds(s) && i < |s|
    ensures UniqueIds(RemoveId(s, s[i].id))
  {
    RemoveIdAt(s, i);
    var r := s[..i] + s[i + 1..];
    forall p, q | 0 <= p < q < |r| ensures r[p].id != r[q].id {
      var p' := if p < i then p else p + 1;
      var q' := if q < i then q else q + 1;
      assert r[p] == s[p'] && r[q] == s[q'];
    }
  }

  /** Removing two distinct objects, one after the other, removes exactly those
      two: the store shrinks by two and every other object stays. */
  lemma RemovePair(s: seq<Entity>, i: nat, j: nat)
    requires UniqueIds(s) && i < |s| && j < |s| && i != j
    ensures var r := RemoveId(RemoveId(s, s[i].id), s[j].id);
      && |r| == |s| - 2
      && UniqueIds(r)
      && (forall x :: x in r <==> x in s && x != s[i] && x != s[j])
  {
    var a := RemoveId(s, s[i].id);
    RemoveIdAt(s, i);
    UniqueIdsAfterRemove(s, i);
    var j' := if j < i then j else j - 1;
    assert a[j'] == s[j];
    RemoveIdAt(a, j');
    UniqueIdsAfterRemove(a, j');
    RemovePairMembers(s, i, j);
  }

  lemma RemovePairMembers(s: seq<Entity>, i: nat, j: nat)
    requires UniqueIds(s) && i < |s| && j < |s| && i != j
    ensures forall x :: x in RemoveId(RemoveId(s, s[i].id), s[j].id) <==> x in s && x != s[i] && x != s[j]
  {
    var a := RemoveId(s, s[i].id);
    var r := RemoveId(a, s[j].id);
    RemoveIdMembers(s, s[i].id);
    RemoveIdMembers(a, s[j].id);
    forall x | x in s && x != s[i] && x != s[j] ensures x in r {
      var k :| 0 <= k < |s| && s[k] == x;
      assert k != i && k != j;
    }
  }

  /** With a single object of a kind, the search for one "other than it" fails. */
  lemma {:induction false} CountOneNoOther(s: seq<Entity>, i: nat)
    requires i < |s| && s[i].kind.Asteroid? && Count(s, AnyAsteroid) == 1
    ensures FirstMatch(s, AsteroidOtherThan(s[i].id)) == None
  {
    OnlyMatch(s, i);
  }

  lemma {:induction false} OnlyMatch(s: seq<Entity>, i: nat)
    requires i < |s| && s[i].kind.Asteroid? && Count(s, AnyAsteroid) == 1
    ensures forall j :: 0 <= j < |s| && j != i ==> !s[j].kind.Asteroid?
  {
    if i == 0 {
      CountZero(s[1..], AnyAsteroid);
    } else {
      CountPositive(s[1..], AnyAsteroid, i - 1);
      OnlyMatch(s[1..], i - 1);
    }
  }

  lemma {:induction false} CountZero(s: seq<Entity>, q: Query)
    requires Count(s, q) == 0
    ensures forall j :: 0 <= j < |s| ==> !Matches(q, s[j])
  {
    if s != [] {
      CountZero(s[1..], q);
    }
  }

  lemma {:induction false} CountPositive(s: seq<Entity>, q: Query, i: nat)
    requires i < |s| && Matches(q, s[i])
    ensures Count(s, q) >= 1
  {
    if i > 0 {
      CountPositive(s[1..], q, i - 1);
    }
  }

  /** Appending an object adds one to the count of the kinds it matches. */
  lemma {:induction false} CountSnoc(s: seq<Entity>, q: Query, e: Entity)
    ensures Count(s + [e], q) == Count(s, q) + (if Matches(q, e) then 1 else 0)
  {
    if s != [] {
      assert (s + [e])[1..] == s[1..] + [e];
      CountSnoc(s[1..], q, e);
    }
  }

  /** The count is positive exactly when some object matches. */
  lemma CountContains(s: seq<Entity>, q: Query)
    ensures Count(s, q) > 0 <==> Contains(s, q)
  {
    if Count(s, q) == 0 {
      CountZero(s, q);
    } else if !Contains(s, q) {
      CountNone(s, q);
    }
  }

  lemma {:induction false} CountNone(s: seq<Entity>, q: Query)
    requires forall j :: 0 <= j < |s| ==> !Matches(q, s[j])
    ensures Count(s, q) == 0
  {
    if s != [] {
      CountNone(s[1..], q);
    }
  }

  /** A store made of objects of another store, with unique identities, keeps
      that store's identity bound and attribute ranges. */
  lemma SubStoreKeepsInvariant(s: seq<Entity>, r: seq<Entity>, next: nat)
    requires forall x :: x in r ==> x in s
    requires IdsBelow(s, next) && AllWellFormed(s)
    ensures IdsBelow(r, next) && AllWellFormed(r)
  {
    forall k | 0 <= k < |r| ensures r[k].id < next && WellFormed(r[k].kind) {
      assert r[k] in s;
    }
  }
}
