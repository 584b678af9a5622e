/** The physics world of the wasm game: a shape cache with one table per shape kind, the
    rigid bodies living in the dynamics world, and ray casts over them. Bullet's numerics
    (stepping, contacts, ray geometry) stay abstract: a ray cast is given the hits Bullet
    reports, each with its distance along the ray.

    Shapes are reference counted in the source. A shape stays alive while a caller still
    holds a `shared_ptr` to it (the multiset `handles`) or a body's user data refers to it;
    the cache tables only hold weak references, so they never keep a shape alive. */
module PhysicsWorld {
  import opened Wrappers
  import opened Sorting

  type Entity = nat
  type ShapeId = nat
  type BodyId = nat

  datatype Vec3 = Vec3(x: real, y: real, z: real)

  /** The key of the capsule table: `glm::vec2(radius, height)`. */
  datatype CapsuleKey = CapsuleKey(radius: real, height: real)

  /** `RigidBodyUserData`: the entity owning the body, its shape, and whether it touches ground. */
  datatype UserData = UserData(entity: Entity, shape: ShapeId, onGround: bool)

  /** A body of the dynamics world, with the two switches the game scripts flip. */
  datatype RigidBody = RigidBody(userData: UserData, mass: real, collides: bool, gravity: bool)

  /** One record of `RaycastWorld`: the entity hit, the body hit and the distance of the hit
      point from the ray's origin (hit point and normal are not modelled). */
  datatype RayHit = RayHit(entity: Entity, body: BodyId, dist: real)

  /** The cache entries whose shape is still alive. */
  function Pruned<K(!new)>(table: map<K, ShapeId>, live: set<ShapeId>): (r: map<K, ShapeId>)
    ensures forall k :: k in r <==> k in table && table[k] in live
    ensures forall k :: k in r ==> r[k] == table[k]
  {
    map k | k in table && table[k] in live :: table[k]
  }

  /** A compaction leaves nothing more to remove: compacting twice is compacting once. */
  lemma PrunedIdempotent<K(!new)>(table: map<K, ShapeId>, live: set<ShapeId>)
    ensures Pruned(Pruned(table, live), live) == Pruned(table, live)
  {
  }

  /** Compaction keeps exactly the live entries, so every entry left refers to a live shape. */
  lemma PrunedAllLive<K(!new)>(table: map<K, ShapeId>, live: set<ShapeId>)
    ensures forall k :: k in Pruned(table, live) ==> Pruned(table, live)[k] in live
    ensures forall k :: k in table && table[k] in live ==> k in Pruned(table, live)
  {
  }

  /** Compaction only removes entries, so a bound on the ids in a table survives it. */
  lemma PrunedBelow<K(!new)>(table: map<K, ShapeId>, live: set<ShapeId>, bound: ShapeId)
    requires forall k :: k in table ==> table[k] < bound
    ensures forall k :: k in Pruned(table, live) ==> Pruned(table, live)[k] < bound
  {
  }

  /** The outcome of one `Get*Collider` lookup: the shape handed out, the new table and the
      next fresh shape id. */
  datatype Acquired<K> = Acquired(shape: ShapeId, table: map<K, ShapeId>, next: ShapeId)

  /** A lookup in one table: the cached shape when its weak reference can still be locked,
      otherwise a new shape (the id `next`) stored under the key. */
  function Acquire<K>(table: map<K, ShapeId>, key: K, live: set<ShapeId>, next: ShapeId): (r: Acquired<K>)
    ensures key in table && table[key] in live ==> r == Acquired(table[key], table, next)
    ensures !(key in table && table[key] in live) ==>
      r == Acquired(next, table[key := next], next + 1)
    ensures r.shape == r.table[key]
  {
    if key in table && table[key] in live then Acquired(table[key], table, next)
    else Acquired(next, table[key := next], next + 1)
  }

  /** Two requests for one descriptor return the same shape while the first is still held:
      the first request's shape is live, because the caller holding it counts. */
  lemma AcquireTwiceSame<K>(table: map<K, ShapeId>, key: K, live: set<ShapeId>, next: ShapeId)
    ensures var a := Acquire(table, key, live, next);
      Acquire(a.table, key, live + {a.shape}, a.next).shape == a.shape
  {
  }

  /** A request never disturbs the entries of other descriptors. */
  lemma AcquireKeepsOtherKeys<K>(table: map<K, ShapeId>, key: K, other: K, live: set<ShapeId>, next: ShapeId)
    requires other != key
    ensures var a := Acquire(table, key, live, next);
      (other in a.table <==> other in table) && (other in table ==> a.table[other] == table[other])
  {
  }

  /** Orders ray hits nearest first. */
  function NearerOrEqual(a: RayHit, b: RayHit): bool {
    a.dist <= b.dist
  }

  lemma NearerOrEqualTotal()
    ensures TotalPreorder(NearerOrEqual)
  {
  }

  /** `RaycastWorld(from, to, sortByDist)` over the hits Bullet reports along the ray. */
  function Raycast(hits: seq<RayHit>, sortByDist: bool): (r: seq<RayHit>)
    ensures multiset(r) == multiset(hits)
    ensures !sortByDist ==> r == hits
  {
    if sortByDist then InsertionSort(hits, NearerOrEqual) else hits
  }

  /** A sorted ray cast lists the hits nearest first, so its front is a nearest hit. */
  lemma {:induction false} RaycastSortedNearestFirst(hits: seq<RayHit>)
    ensures var r := Raycast(hits, true);
      (forall i, j :: 0 <= i < j < |r| ==> r[i].dist <= r[j].dist) &&
      (|r| > 0 ==> forall h :: h in hits ==> r[0].dist <= h.dist)
  {
    NearerOrEqualTotal();
    InsertionSortSorted(hits, NearerOrEqual);
    var r := Raycast(hits, true);
    forall h | h in hits && |r| > 0
      ensures r[0].dist <= h.dist
    {
      assert h in multiset(r);
      var j :| 0 <= j < |r| && r[j] == h;
      if j > 0 {
        assert NearerOrEqual(r[0], r[j]);
      }
    }
  }

  /** The hits a caller's filter accepts, in their order (the filtered `RaycastWorld`). */
  function Filter(hits: seq<RayHit>, accept: RayHit -> bool): (r: seq<RayHit>)
    ensures forall h :: h in r <==> h in hits && accept(h)
    ensures |r| <= |hits|
  {
    if |hits| == 0 then []
    else (if accept(hits[0]) then [hits[0]] else []) + Filter(hits[1..], accept)
  }

  /** The filtered ray cast the scripts use; its first record, if any. */
  function FirstHit(hits: seq<RayHit>, accept: RayHit -> bool): (r: Option<RayHit>)
    ensures r.Some? ==> r.value in hits && accept(r.value)
    ensures r.Some? ==> forall h :: h in hits && accept(h) ==> r.value.dist <= h.dist
    ensures r.None? ==> forall h :: h in hits ==> !accept(h)
  {
    var r := Raycast(Filter(hits, accept), true);
    RaycastSortedNearestFirst(Filter(hits, accept));
    if |r| == 0 then
      assert forall h :: h in Filter(hits, accept) ==> h in multiset(r);
      None
    else
      assert r[0] in multiset(Filter(hits, accept));
      Some(r[0])
  }

  class World {
    var boxShapes: map<Vec3, ShapeId>
    var sphereShapes: map<real, ShapeId>
    var capsuleShapes: map<CapsuleKey, ShapeId>
    /** The shapes callers still hold, with one copy per `shared_ptr`. */
    var handles: multiset<ShapeId>
    var bodies: map<BodyId, RigidBody>
    var nextShape: ShapeId
    var nextBody: BodyId

    /** Ids are handed out in increasing order, so every id in use lies below the next one. */
    ghost predicate Valid()
      reads this
    {
      TablesBelow() && ReferencesBelow()
    }

    ghost predicate TablesBelow()
      reads this`boxShapes, this`sphereShapes, this`capsuleShapes, this`nextShape
    {
      (forall k :: k in boxShapes ==> boxShapes[k] < nextShape) &&
      (forall k :: k in sphereShapes ==> sphereShapes[k] < nextShape) &&
      (forall k :: k in capsuleShapes ==> capsuleShapes[k] < nextShape)
    }

    ghost predicate ReferencesBelow()
      reads this`handles, this`bodies, this`nextShape, this`nextBody
    {
      (forall s :: s in handles ==> s < nextShape) &&
      (forall b :: b in bodies ==> b < nextBody && bodies[b].userData.shape < nextShape)
    }

    /** The shapes with at least one strong reference: a caller's or a body's. */
    function LiveShapes(): set<ShapeId>
      reads this`handles, this`bodies
    {
      (set s | s in handles) + (set b | b in bodies :: bodies[b].userData.shape)
    }

    constructor()
      ensures Valid()
      ensures boxShapes == map[] && sphereShapes == map[] && capsuleShapes == map[]
      ensures handles == multiset{} && bodies == map[]
    {
      boxShapes, sphereShapes, capsuleShapes := map[], map[], map[];
      handles, bodies := multiset{}, map[];
      nextShape, nextBody := 0, 0;
    }

    /** `GetBoxCollider(halfExtents)`: the cached box of exactly these half extents if it is
        still alive, otherwise a new one, which the table then remembers. */
    method GetBoxCollider(halfExtents: Vec3) returns (s: ShapeId)
      requires Valid()
      modifies this`boxShapes, this`handles, this`nextShape
      ensures Valid()
      ensures var a := Acquire(old(boxShapes), halfExtents, old(LiveShapes()), old(nextShape));
        s == a.shape && boxShapes == a.table && nextShape == a.next
      ensures s !in old(LiveShapes()) ==> s == old(nextShape)
      ensures handles == old(handles) + multiset{s}
      ensures halfExtents in boxShapes && boxShapes[halfExtents] == s
    {
      var a := Acquire(boxShapes, halfExtents, LiveShapes(), nextShape);
      s, boxShapes, nextShape := a.shape, a.table, a.next;
      handles := handles + multiset{s};
    }

    /** `GetSphereCollider(radius)`, the same lookup in the sphere table. */
    method GetSphereCollider(radius: real) returns (s: ShapeId)
      requires Valid()
      modifies this`sphereShapes, this`handles, this`nextShape
      ensures Valid()
      ensures var a := Acquire(old(sphereShapes), radius, old(LiveShapes()), old(nextShape));
        s == a.shape && sphereShapes == a.table && nextShape == a.next
      ensures s !in old(LiveShapes()) ==> s == old(nextShape)
      ensures handles == old(handles) + multiset{s}
    {
      var a := Acquire(sphereShapes, radius, LiveShapes(), nextShape);
      s, sphereShapes, nextShape := a.shape, a.table, a.next;
      handles := handles + multiset{s};
    }

    /** `GetCapsuleCollider(radius, height)`, the same lookup in the capsule table. */
    method GetCapsuleCollider(radius: real, height: real) returns (s: ShapeId)
      requires Valid()
      modifies this`capsuleShapes, this`handles, this`nextShape
      ensures Valid()
      ensures var a := Acquire(old(capsuleShapes), CapsuleKey(radius, height), old(LiveShapes()), old(nextShape));
        s == a.shape && capsuleShapes == a.table && nextShape == a.next
      ensures s !in old(LiveShapes()) ==> s == old(nextShape)
      ensures handles == old(handles) + multiset{s}
      ensures CapsuleKey(radius, height) in capsuleShapes && capsuleShapes[CapsuleKey(radius, height)] == s
    {
      var a := Acquire(capsuleShapes, CapsuleKey(radius, height), LiveShapes(), nextShape);
      s, capsuleShapes, nextShape := a.shape, a.table, a.next;
      handles := handles + multiset{s};
    }

    /** A caller's `shared_ptr` to a shape goes out of scope. */
    method ReleaseShape(s: ShapeId)
      requires Valid() && s in handles
      modifies this`handles
      ensures Valid()
      ensures handles == old(handles) - multiset{s}
    {
      handles := handles - multiset{s};
    }

    /** `CreateRigidBody(entity, shape, mass, ...)`: a new body whose user data records the
        entity and shape passed in; it starts off the ground, colliding and under gravity. */
    method CreateRigidBody(entity: Entity, shape: ShapeId, mass: real) returns (b: BodyId)
      requires Valid() && shape in handles
      modifies this`bodies, this`nextBody
      ensures Valid()
      ensures b == old(nextBody) && b !in old(bodies) && nextBody == b + 1
      ensures bodies == old(bodies)[b := RigidBody(UserData(entity, shape, false), mass, true, true)]
    {
      b := nextBody;
      bodies := bodies[b := RigidBody(UserData(entity, shape, false), mass, true, true)];
      nextBody := nextBody + 1;
    }

    /** `DestroyRigidBody(body)`: that one body leaves the world. The body must still be in the
        world; a null pointer removes nothing. */
    method DestroyRigidBody(body: Option<BodyId>)
      requires Valid()
      requires body.Some? ==> body.value in bodies
      modifies this`bodies
      ensures Valid()
      ensures body.Some? ==> bodies == old(bodies) - {body.value}
      ensures body.None? ==> bodies == old(bodies)
    {
      if body.Some? {
        bodies := bodies - {body.value};
      }
    }

    /** `BodyDisableCollisions`/`BodyEnableCollisions` and the gravity switches together. */
    method SetBodyPhysics(b: BodyId, collides: bool, gravity: bool)
      requires Valid() && b in bodies
      modifies this`bodies
      ensures Valid()
      ensures bodies == old(bodies)[b := old(bodies)[b].(collides := collides, gravity := gravity)]
    {
      bodies := bodies[b := bodies[b].(collides := collides, gravity := gravity)];
    }

    /** `CheckObjectsTouchingGround`: every body's flag records whether Bullet reports it in
        contact with the ground (`grounded`). */
    method CheckObjectsTouchingGround(grounded: set<BodyId>)
      requires Valid()
      modifies this`bodies
      ensures Valid()
      ensures bodies.Keys == old(bodies).Keys
      ensures forall b :: b in bodies ==>
        bodies[b] == old(bodies)[b].(userData := old(bodies)[b].userData.(onGround := b in grounded))
    {
      bodies := map b | b in bodies :: bodies[b].(userData := bodies[b].userData.(onGround := b in grounded));
    }

    /** Removes from one table the entries whose shape is no longer alive, one key at a time. */
    static method PruneTable<K(!new)>(table: map<K, ShapeId>, live: set<ShapeId>) returns (r: map<K, ShapeId>)
      ensures r == Pruned(table, live)
    {
      r := table;
      var todo := table.Keys;
      while todo != {}
        invariant todo <= table.Keys
        invariant forall k :: k in r <==> k in table && (k in todo || table[k] in live)
        invariant forall k :: k in r ==> r[k] == table[k]
        decreases todo
      {
        var k :| k in todo;
        if table[k] !in live {
          r := r - {k};
        }
        todo := todo - {k};
      }
    }

    /** `Update`: the compaction pass. Exactly the entries whose shape has expired leave the
        three tables; bodies, handles and so every live shape are untouched. */
    method Update()
      requires Valid()
      modifies this`boxShapes, this`sphereShapes, this`capsuleShapes
      ensures Valid()
      ensures LiveShapes() == old(LiveShapes())
      ensures boxShapes == Pruned(old(boxShapes), LiveShapes())
      ensures sphereShapes == Pruned(old(sphereShapes), LiveShapes())
      ensures capsuleShapes == Pruned(old(capsuleShapes), LiveShapes())
    {
      var live := LiveShapes();
      PrunedBelow(boxShapes, live, nextShape);
      assert forall r :: r in sphereShapes ==> sphereShapes[r] < nextShape;
      PrunedBelow(sphereShapes, live, nextShape);
      PrunedBelow(capsuleShapes, live, nextShape);
      var boxes := PruneTable(boxShapes, live);
      var spheres := PruneTable(sphereShapes, live);
      var capsules := PruneTable(capsuleShapes, live);
      boxShapes, sphereShapes, capsuleShapes := boxes, spheres, capsules;
    }
  }
}
