/** The entity registry of a game scene together with its physics world. Construction
    connects one destroy hook for `RigidBodyComponent`: whenever an entity holding that
    component is destroyed, the hook first reads the body the component stores and destroys
    it in the world, and only then does the component go. Tearing the scene down clears the
    registry, and with it every body. */
module Scene {
  import opened Wrappers
  import opened PhysicsWorld

  datatype Flag = Pickable | Interactable

  datatype MeshComponent = MeshComponent(mesh: string, hidden: bool)

  /** The components of one entity, each present or absent. A `RigidBodyComponent` stores a
      body pointer that may itself be null. */
  datatype Components = Components(
    rigidBody: Option<Option<BodyId>>,
    tag: Option<string>,
    flags: set<Flag>,
    mesh: Option<MeshComponent>,
    bookHint: Option<string>,
    player: bool)

  /** An entity just created, with no components yet. */
  const NoComponents: Components := Components(None, None, {}, None, None, false)

  /** The body a component set refers to: none without a `RigidBodyComponent` or with a null one. */
  function BodyOf(c: Components): (r: Option<BodyId>)
    ensures r.Some? <==> c.rigidBody.Some? && c.rigidBody.value.Some?
  {
    if c.rigidBody.Some? then c.rigidBody.value else None
  }

  /** `registry.try_get<TagComponent>(e)`, reading a dead entity as one without components. */
  function TagOf(comps: map<Entity, Components>, e: Entity): (r: Option<string>)
    ensures r.Some? <==> e in comps && comps[e].tag.Some?
  {
    if e in comps then comps[e].tag else None
  }

  /** The flags of `registry.get<FlagComponent>(e)`, with none for an entity lacking it. */
  function FlagsOf(comps: map<Entity, Components>, e: Entity): (r: set<Flag>)
    ensures e !in comps ==> r == {}
  {
    if e in comps then comps[e].flags else {}
  }

  /** What `RaycastWorld` promises about its records: each hit body belongs to a live entity
      whose `RigidBodyComponent` stores it. */
  ghost predicate HitsLive(comps: map<Entity, Components>, hits: seq<RayHit>) {
    forall h :: h in hits ==> h.entity in comps && BodyOf(comps[h.entity]) == Some(h.body)
  }

  /** The bodies whose owning entity is not among `gone`. */
  function BodiesNotOwnedBy(bodies: map<BodyId, RigidBody>, gone: set<Entity>): (r: map<BodyId, RigidBody>)
    ensures forall b :: b in r <==> b in bodies && bodies[b].userData.entity !in gone
    ensures forall b :: b in r ==> r[b] == bodies[b]
  {
    map b | b in bodies && bodies[b].userData.entity !in gone :: bodies[b]
  }

  /** Every entity lies below the next id; every stored body is in the world and records its
      entity; every body of the world is stored by the entity its user data names. So entities
      holding bodies and bodies correspond one to one. */
  ghost predicate Consistent(comps: map<Entity, Components>, bodies: map<BodyId, RigidBody>, next: Entity) {
    (forall e :: e in comps ==> e < next) &&
    (forall e :: e in comps && BodyOf(comps[e]).Some? ==>
      BodyOf(comps[e]).value in bodies && bodies[BodyOf(comps[e]).value].userData.entity == e) &&
    (forall b :: b in bodies ==>
      bodies[b].userData.entity in comps && BodyOf(comps[bodies[b].userData.entity]) == Some(b))
  }

  /** Removing the bodies of one more owner, one at a time, adds up. */
  lemma BodiesNotOwnedByStep(bodies: map<BodyId, RigidBody>, gone: set<Entity>, e: Entity)
    ensures BodiesNotOwnedBy(BodiesNotOwnedBy(bodies, gone), {e}) == BodiesNotOwnedBy(bodies, gone + {e})
  {
  }

  /** When bodies and entities correspond one to one, the bodies owned by `e` are exactly the
      one its components store. */
  lemma OwnedBodies(bodies: map<BodyId, RigidBody>, comps: map<Entity, Components>, e: Entity)
    requires e in comps
    requires forall b :: b in bodies ==>
      bodies[b].userData.entity in comps && BodyOf(comps[bodies[b].userData.entity]) == Some(b)
    requires BodyOf(comps[e]).Some? ==>
      BodyOf(comps[e]).value in bodies && bodies[BodyOf(comps[e]).value].userData.entity == e
    ensures BodiesNotOwnedBy(bodies, {e}) ==
      if BodyOf(comps[e]).Some? then bodies - {BodyOf(comps[e]).value} else bodies
  {
    var r := if BodyOf(comps[e]).Some? then bodies - {BodyOf(comps[e]).value} else bodies;
    forall b | b in bodies
      ensures b in BodiesNotOwnedBy(bodies, {e}) <==> b in r
    {
      if bodies[b].userData.entity == e {
        assert BodyOf(comps[e]) == Some(b);
      }
    }
  }

  /** The components of the i-th entity of a spawn whose bodies are numbered from `b0` on. */
  function SpawnedEntity(b0: BodyId, i: int, meshes: seq<string>): Components
    requires |meshes| > 0 && i >= 0
  {
    NoComponents.(rigidBody := Some(Some(b0 + i)), mesh := Some(MeshComponent(meshes[i % |meshes|], false)))
  }

  /** The i-th body of a spawn whose entities are numbered from `e0` on. */
  function SpawnedBody(e0: Entity, i: int, shape: ShapeId, mass: real): RigidBody
    requires i >= 0
  {
    RigidBody(UserData(e0 + i, shape, false), mass, true, true)
  }

  /** The entities a spawn of `n` turns creates from ids `e0` and `b0` on. */
  function SpawnedEntities(e0: Entity, b0: BodyId, n: nat, meshes: seq<string>): map<Entity, Components>
    requires |meshes| > 0
  {
    if n == 0 then map[] else SpawnedEntities(e0, b0, n - 1, meshes)[e0 + n - 1 := SpawnedEntity(b0, n - 1, meshes)]
  }

  /** The bodies such a spawn creates. */
  function SpawnedBodies(e0: Entity, b0: BodyId, n: nat, shape: ShapeId, mass: real): map<BodyId, RigidBody>
  {
    if n == 0 then map[] else SpawnedBodies(e0, b0, n - 1, shape, mass)[b0 + n - 1 := SpawnedBody(e0, n - 1, shape, mass)]
  }

  /** A spawn creates entities `e0 .. e0 + n`, the i-th holding body `b0 + i` and mesh
      `meshes[i % |meshes|]`. */
  lemma {:induction false} SpawnedEntitiesContents(e0: Entity, b0: BodyId, n: nat, meshes: seq<string>)
    requires |meshes| > 0
    ensures forall e :: e in SpawnedEntities(e0, b0, n, meshes) <==> e0 <= e < e0 + n
    ensures forall e :: e in SpawnedEntities(e0, b0, n, meshes) ==>
      SpawnedEntities(e0, b0, n, meshes)[e] == SpawnedEntity(b0, e - e0, meshes)
  {
    if n > 0 {
      SpawnedEntitiesContents(e0, b0, n - 1, meshes);
    }
  }

  /** ... and bodies `b0 .. b0 + n`, the i-th owned by entity `e0 + i`, of the shared shape. */
  lemma {:induction false} SpawnedBodiesContents(e0: Entity, b0: BodyId, n: nat, shape: ShapeId, mass: real)
    ensures forall b :: b in SpawnedBodies(e0, b0, n, shape, mass) <==> b0 <= b < b0 + n
    ensures forall b :: b in SpawnedBodies(e0, b0, n, shape, mass) ==>
      SpawnedBodies(e0, b0, n, shape, mass)[b] == SpawnedBody(e0, b - b0, shape, mass)
  {
    if n > 0 {
      SpawnedBodiesContents(e0, b0, n - 1, shape, mass);
    }
  }

  /** Adding entities `e0 .. e0 + n` with bodies `b0 .. b0 + n`, entity i owning body i, to a
      consistent registry and world below those ids keeps them consistent. */
  lemma ConsistentUnion(c0: map<Entity, Components>, w0: map<BodyId, RigidBody>, e0: Entity, b0: BodyId, n: nat,
                        es: map<Entity, Components>, bs: map<BodyId, RigidBody>)
    requires Consistent(c0, w0, e0) && forall b :: b in w0 ==> b < b0
    requires forall e :: e in es <==> e0 <= e < e0 + n
    requires forall e :: e in es ==> BodyOf(es[e]) == Some(b0 + (e - e0))
    requires forall b :: b in bs <==> b0 <= b < b0 + n
    requires forall b :: b in bs ==> bs[b].userData.entity == e0 + (b - b0)
    ensures Consistent(c0 + es, w0 + bs, e0 + n)
  {
    var cs, ws := c0 + es, w0 + bs;
    forall e | e in cs && BodyOf(cs[e]).Some?
      ensures BodyOf(cs[e]).value in ws && ws[BodyOf(cs[e]).value].userData.entity == e
    {
      if e in es {
        var b := b0 + (e - e0);
        assert b in bs && ws[b] == bs[b];
      } else {
        var b := BodyOf(c0[e]).value;
        assert b !in bs && ws[b] == w0[b];
      }
    }
    forall b | b in ws
      ensures ws[b].userData.entity in cs && BodyOf(cs[ws[b].userData.entity]) == Some(b)
    {
      if b in bs {
        var e := e0 + (b - b0);
        assert e in es && cs[e] == es[e];
      } else {
        var e := w0[b].userData.entity;
        assert e in c0 && e !in es && cs[e] == c0[e];
      }
    }
  }

  /** A spawn keeps the registry and the world in correspondence. */
  lemma SpawnKeepsConsistent(c0: map<Entity, Components>, w0: map<BodyId, RigidBody>, e0: Entity, b0: BodyId,
                             n: nat, shape: ShapeId, mass: real, meshes: seq<string>)
    requires |meshes| > 0 && Consistent(c0, w0, e0)
    requires forall b :: b in w0 ==> b < b0
    ensures Consistent(c0 + SpawnedEntities(e0, b0, n, meshes), w0 + SpawnedBodies(e0, b0, n, shape, mass), e0 + n)
  {
    SpawnedEntitiesContents(e0, b0, n, meshes);
    SpawnedBodiesContents(e0, b0, n, shape, mass);
    ConsistentUnion(c0, w0, e0, b0, n, SpawnedEntities(e0, b0, n, meshes), SpawnedBodies(e0, b0, n, shape, mass));
  }

  /** One more turn of a spawn, on top of what was there before it. */
  lemma SpawnStep(c0: map<Entity, Components>, w0: map<BodyId, RigidBody>, e0: Entity, b0: BodyId,
                  i: nat, shape: ShapeId, mass: real, meshes: seq<string>)
    requires |meshes| > 0 && e0 + i !in c0 && b0 + i !in w0
    ensures (c0 + SpawnedEntities(e0, b0, i, meshes))[e0 + i := SpawnedEntity(b0, i, meshes)]
      == c0 + SpawnedEntities(e0, b0, i + 1, meshes)
    ensures (w0 + SpawnedBodies(e0, b0, i, shape, mass))[b0 + i := SpawnedBody(e0, i, shape, mass)]
      == w0 + SpawnedBodies(e0, b0, i + 1, shape, mass)
  {
    UnionUpdate(c0, SpawnedEntities(e0, b0, i, meshes), e0 + i, SpawnedEntity(b0, i, meshes));
    UnionUpdate(w0, SpawnedBodies(e0, b0, i, shape, mass), b0 + i, SpawnedBody(e0, i, shape, mass));
  }

  /** Adding a fresh key to the right of a union is adding it to the union. */
  lemma UnionUpdate<K, V>(a: map<K, V>, b: map<K, V>, k: K, v: V)
    requires k !in a
    ensures (a + b)[k := v] == a + b[k := v]
  {
  }

  class Scene {
    const world: World
    var components: map<Entity, Components>
    var nextEntity: Entity

    /** The world's ids are in order and the registry and the world agree (`Consistent`). */
    ghost predicate Valid()
      reads this, world
    {
      world.Valid() && Consistent(components, world.bodies, nextEntity)
    }

    constructor()
      ensures Valid() && fresh(world)
      ensures components == map[] && world.bodies == map[] && world.handles == multiset{}
    {
      world := new World();
      components := map[];
      nextEntity := 0;
    }

    /** `registry.create()` followed by the component emplacements that do not involve bodies. */
    method CreateEntity(c: Components) returns (e: Entity)
      requires Valid() && BodyOf(c).None?
      modifies this
      ensures Valid()
      ensures e == old(nextEntity) && e !in old(components) && nextEntity == e + 1
      ensures components == old(components)[e := c]
    {
      e := nextEntity;
      components := components[e := c];
      nextEntity := nextEntity + 1;
    }

    /** Replaces the components of a live entity without touching its body. */
    method SetComponents(e: Entity, c: Components)
      requires Valid() && e in components && BodyOf(c) == BodyOf(components[e])
      modifies this`components
      ensures Valid()
      ensures components == old(components)[e := c]
    {
      components := components[e := c];
    }

    /** A caller's handle to a shape of the scene's world goes out of scope. */
    method ReleaseShape(s: ShapeId)
      requires Valid() && s in world.handles
      modifies world`handles
      ensures Valid()
      ensures world.handles == old(world.handles) - multiset{s}
    {
      world.ReleaseShape(s);
    }

    /** `SetBodyPhysics` on a body of the scene's world: the body's collision and gravity
        flags change and the entity table stays as it is. */
    method SetBodyPhysics(b: BodyId, collides: bool, gravity: bool)
      requires Valid() && b in world.bodies
      modifies world`bodies
      ensures Valid()
      ensures world.bodies == old(world.bodies)[b := old(world.bodies)[b].(collides := collides, gravity := gravity)]
    {
      world.SetBodyPhysics(b, collides, gravity);
    }

    /** `CreateRigidBody(e, shape, mass, ...)` followed by emplacing a `RigidBodyComponent`
        holding the new body on `e`. */
    method AttachNewBody(e: Entity, shape: ShapeId, mass: real) returns (b: BodyId)
      requires Valid() && e in components && components[e].rigidBody.None?
      requires shape in world.handles
      modifies this`components, world`bodies, world`nextBody
      ensures Valid()
      ensures b == old(world.nextBody) && b !in old(world.bodies) && world.nextBody == b + 1
      ensures world.bodies == old(world.bodies)[b := RigidBody(UserData(e, shape, false), mass, true, true)]
      ensures components == old(components)[e := old(components)[e].(rigidBody := Some(Some(b)))]
    {
      b := world.CreateRigidBody(e, shape, mass);
      components := components[e := components[e].(rigidBody := Some(Some(b)))];
    }

    /** `OnDestroyRigidBody`: the hook destroys the body stored in the component that is about
        to be removed. */
    method OnDestroyRigidBody(e: Entity)
      requires Valid() && e in components && components[e].rigidBody.Some?
      modifies world`bodies
      ensures world.Valid()
      ensures BodyOf(components[e]).Some? ==> world.bodies == old(world.bodies) - {BodyOf(components[e]).value}
      ensures BodyOf(components[e]).None? ==> world.bodies == old(world.bodies)
    {
      var body := components[e].rigidBody.value;
      world.DestroyRigidBody(body);
    }

    /** `registry.destroy(e)`: the destroy hook runs first when `e` holds a
        `RigidBodyComponent`, so exactly the body it stores leaves the world; then the entity
        and all its components go. */
    method Destroy(e: Entity)
      requires Valid() && e in components
      modifies this`components, world`bodies
      ensures Valid()
      ensures components == old(components) - {e}
      ensures world.bodies == BodiesNotOwnedBy(old(world.bodies), {e})
      ensures BodyOf(old(components[e])).Some? ==>
        world.bodies == old(world.bodies) - {BodyOf(old(components[e])).value}
      ensures BodyOf(old(components[e])).None? ==> world.bodies == old(world.bodies)
    {
      OwnedBodies(world.bodies, components, e);
      if components[e].rigidBody.Some? {
        OnDestroyRigidBody(e);
      }
      components := components - {e};
    }

    /** Destroys every entity of `victims`, one at a time; exactly their bodies leave the world. */
    method DestroyAll(victims: set<Entity>)
      requires Valid() && victims <= components.Keys
      modifies this`components, world`bodies
      ensures Valid()
      ensures components == old(components) - victims
      ensures world.bodies == BodiesNotOwnedBy(old(world.bodies), victims)
    {
      var todo := victims;
      while todo != {}
        invariant Valid() && todo <= victims && todo <= components.Keys
        invariant components == old(components) - (victims - todo)
        invariant world.bodies == BodiesNotOwnedBy(old(world.bodies), victims - todo)
        decreases todo
      {
        var e :| e in todo;
        ghost var gone := victims - todo;
        Destroy(e);
        BodiesNotOwnedByStep(old(world.bodies), gone, e);
        assert victims - (todo - {e}) == gone + {e};
        todo := todo - {e};
      }
    }

    /** The destructor's `registry.clear()`: every entity is destroyed, so every body still
        attached to one is destroyed exactly once, and none remains. */
    method Clear()
      requires Valid()
      modifies this`components, world`bodies
      ensures Valid()
      ensures components == map[] && world.bodies == map[]
    {
      DestroyAll(components.Keys);
      assert forall b :: b !in world.bodies;
    }

    /** The stress spawns of both scenes: `count` new entities, entity i with its own new body
        of the shared `shape` and `mass`, and the mesh `meshes[i % |meshes|]`; nothing that
        existed before changes. Each turn runs `registry.create()`, `CreateRigidBody`, then
        emplaces the `RigidBodyComponent` and the `MeshComponent`. */
    method SpawnBodies(count: nat, shape: ShapeId, mass: real, meshes: seq<string>)
      requires Valid() && shape in world.handles && |meshes| > 0
      modifies this, world`bodies, world`nextBody
      ensures Valid()
      ensures nextEntity == old(nextEntity) + count && world.nextBody == old(world.nextBody) + count
      ensures components == old(components) + SpawnedEntities(old(nextEntity), old(world.nextBody), count, meshes)
      ensures world.bodies == old(world.bodies) + SpawnedBodies(old(nextEntity), old(world.nextBody), count, shape, mass)
    {
      SpawnLoop(count, shape, mass, meshes);
      SpawnKeepsConsistent(old(components), old(world.bodies), old(nextEntity), old(world.nextBody), count, shape, mass, meshes);
    }

    /** A stress spawn over a shape the caller holds a handle to, followed by the release of
        that handle at the end of the caller's block. */
    method SpawnAndRelease(count: nat, shape: ShapeId, mass: real, meshes: seq<string>)
      requires Valid() && shape in world.handles && |meshes| > 0
      modifies this, world`bodies, world`nextBody, world`handles
      ensures Valid() && world.handles == old(world.handles) - multiset{shape}
      ensures nextEntity == old(nextEntity) + count && world.nextBody == old(world.nextBody) + count
      ensures components == old(components) + SpawnedEntities(old(nextEntity), old(world.nextBody), count, meshes)
      ensures world.bodies == old(world.bodies) + SpawnedBodies(old(nextEntity), old(world.nextBody), count, shape, mass)
    {
      SpawnBodies(count, shape, mass, meshes);
      ReleaseShape(shape);
    }

    /** The loop of `SpawnBodies`, stated on the registry's and the world's maps alone. */
    method SpawnLoop(count: nat, shape: ShapeId, mass: real, meshes: seq<string>)
      requires world.Valid() && shape in world.handles && |meshes| > 0
      requires forall e :: e in components ==> e < nextEntity
      modifies this`components, this`nextEntity, world`bodies, world`nextBody
      ensures world.Valid()
      ensures nextEntity == old(nextEntity) + count && world.nextBody == old(world.nextBody) + count
      ensures components == old(components) + SpawnedEntities(old(nextEntity), old(world.nextBody), count, meshes)
      ensures world.bodies == old(world.bodies) + SpawnedBodies(old(nextEntity), old(world.nextBody), count, shape, mass)
    {
      ghost var c0, w0, e0, b0 := components, world.bodies, nextEntity, world.nextBody;
      var i := 0;
      while i < count
        invariant 0 <= i <= count && world.Valid() && shape in world.handles
        invariant nextEntity == e0 + i && world.nextBody == b0 + i
        invariant forall e :: e in components ==> e < nextEntity
        invariant components == c0 + SpawnedEntities(e0, b0, i, meshes)
        invariant world.bodies == w0 + SpawnedBodies(e0, b0, i, shape, mass)
      {
        SpawnOne(shape, mass, meshes[i % |meshes|]);
        SpawnStep(c0, w0, e0, b0, i, shape, mass, meshes);
        i := i + 1;
      }
    }

    /** One turn of the spawn: a new entity holding a new body and the mesh. */
    method SpawnOne(shape: ShapeId, mass: real, mesh: string)
      requires world.Valid() && shape in world.handles
      requires forall e :: e in components ==> e < nextEntity
      modifies this`components, this`nextEntity, world`bodies, world`nextBody
      ensures world.Valid()
      ensures nextEntity == old(nextEntity) + 1 && world.nextBody == old(world.nextBody) + 1
      ensures forall e :: e in components ==> e < nextEntity
      ensures components == old(components)[old(nextEntity) :=
        NoComponents.(rigidBody := Some(Some(old(world.nextBody))), mesh := Some(MeshComponent(mesh, false)))]
      ensures world.bodies == old(world.bodies)[old(world.nextBody) :=
        RigidBody(UserData(old(nextEntity), shape, false), mass, true, true)]
    {
      var e := nextEntity;
      nextEntity := nextEntity + 1;
      var b := world.CreateRigidBody(e, shape, mass);
      components := components[e := NoComponents.(rigidBody := Some(Some(b)), mesh := Some(MeshComponent(mesh, false)))];
    }
  }
}
