/** The player: one entity of the scene carrying a `PlayerComponent` and a capsule body, and
    the object it carries. The player owns its body through a pointer that is moved between
    players and nulled, so each player entity is destroyed at most once. Camera and movement
    maths are not modelled; of the input handling only the jump gate is. */
module Player {
  import opened Wrappers
  import opened PhysicsWorld
  import opened Scene
  import opened ObjectCarry

  /** The player's capsule: radius 10, height 20, mass 50. */
  const CapsuleRadius: real := 10.0
  const CapsuleHeight: real := 20.0
  const PlayerMass: real := 50.0

  /** Milliseconds that must pass after a jump before the next one from the ground. */
  const JumpCooldown: int := 250

  /** Whether a held space bar jumps: always while flying, otherwise only on the ground and
      strictly more than 250 ms after the last jump. */
  predicate CanJump(fly: bool, onGround: bool, now: int, lastJump: int) {
    fly || (onGround && now - lastJump > JumpCooldown)
  }

  /** The jump gate with the time of the last jump: a jump happens exactly when the space bar
      is held and the gate is open, and it restarts the cooldown at `now`. */
  function Jump(fly: bool, onGround: bool, space: bool, now: int, lastJump: int): (r: (bool, int))
    ensures r.0 <==> space && (fly || (onGround && now - lastJump > JumpCooldown))
    ensures r.1 == if r.0 then now else lastJump
  {
    if CanJump(fly, onGround, now, lastJump) && space then (true, now) else (false, lastJump)
  }

  /** Right after a jump from the ground, no second jump is possible for 250 ms. */
  lemma JumpCooldownHolds(onGround: bool, now: int, lastJump: int, later: int)
    requires Jump(false, onGround, true, now, lastJump).0
    requires now <= later <= now + JumpCooldown
    ensures !Jump(false, onGround, true, later, Jump(false, onGround, true, now, lastJump).1).0
  {
  }

  /** Off the ground and not flying, no jump ever happens. */
  lemma NoJumpInAir(space: bool, now: int, lastJump: int)
    ensures Jump(false, false, space, now, lastJump) == (false, lastJump)
  {
  }

  /** The components of the player entity once built. */
  function PlayerComponents(b: BodyId): (c: Components)
    ensures c.player && BodyOf(c) == Some(b)
  {
    NoComponents.(rigidBody := Some(Some(b)), player := true)
  }

  class Player {
    const scene: Scene
    const objectCarry: ObjectCarry
    var rigidBody: Option<BodyId>
    var entity: Entity
    var fly: bool
    var lastJump: int

    /** A player holding its body owns the entity: the entity is alive, is a player and stores
        exactly that body. */
    ghost predicate Owns()
      reads this`rigidBody, this`entity, scene`components
    {
      rigidBody.Some? ==>
        entity in scene.components && scene.components[entity].player &&
        BodyOf(scene.components[entity]) == rigidBody
    }

    /** Builds the player at time `now` (see `BuildPlayerEntity`), with an empty object carry
        of the default drop distance. */
    constructor(scene: Scene, now: int)
      requires scene.Valid()
      modifies scene, scene.world
      ensures scene.Valid() && Owns() && this.scene == scene && fresh(objectCarry)
      ensures objectCarry.Valid() && objectCarry.registry == scene && objectCarry.State() == Empty
      ensures objectCarry.dropDistance == DefaultDropDistance && objectCarry.canDropByItself
      ensures !fly && lastJump == now
      ensures rigidBody.Some? && rigidBody.value !in old(scene.world.bodies)
      ensures entity == old(scene.nextEntity) && entity !in old(scene.components)
      ensures scene.components == old(scene.components)[entity := PlayerComponents(rigidBody.value)]
      ensures CapsuleKey(CapsuleRadius, CapsuleHeight) in scene.world.capsuleShapes
      ensures scene.world.bodies == old(scene.world.bodies)[rigidBody.value :=
        RigidBody(UserData(entity, scene.world.capsuleShapes[CapsuleKey(CapsuleRadius, CapsuleHeight)], false),
                  PlayerMass, true, true)]
      ensures scene.world.handles == old(scene.world.handles)
    {
      this.scene := scene;
      objectCarry := new ObjectCarry(scene, DefaultDropDistance);
      var e, b := BuildPlayerEntity(scene);
      rigidBody := Some(b);
      entity := e;
      fly := false;
      lastJump := now;
    }

    /** The move constructor: takes over `other`'s body, entity and scene, and nulls `other`'s
        body so that `other` destroys nothing. A new object carry is made; `fly` is the default
        and the jump timer starts at `now`. */
    constructor Move(other: Player, now: int)
      modifies other`rigidBody
      ensures scene == other.scene && rigidBody == old(other.rigidBody) && entity == other.entity
      ensures other.rigidBody.None? && fresh(objectCarry) && objectCarry.State() == Empty
      ensures objectCarry.Valid() && objectCarry.registry == scene && objectCarry.canDropByItself
      ensures !fly && lastJump == now
    {
      scene := other.scene;
      objectCarry := new ObjectCarry(other.scene, DefaultDropDistance);
      rigidBody := other.rigidBody;
      entity := other.entity;
      fly := false;
      lastJump := now;
      other.rigidBody := None;
    }

    /** `Cleanup`, which the destructor runs: nothing without a body; otherwise the pointer is
        nulled first and the entity destroyed, which destroys the body through the hook. */
    method Cleanup()
      requires scene.Valid() && Owns()
      modifies this`rigidBody, scene`components, scene.world`bodies
      ensures scene.Valid() && Owns() && rigidBody.None?
      ensures old(rigidBody).None? ==>
        scene.components == old(scene.components) && scene.world.bodies == old(scene.world.bodies)
      ensures old(rigidBody).Some? ==>
        scene.components == old(scene.components) - {entity} &&
        scene.world.bodies == old(scene.world.bodies) - {old(rigidBody).value}
    {
      if rigidBody.None? {
        return;
      }
      rigidBody := None;
      scene.Destroy(entity);
    }

    /** Move assignment: nothing on self-assignment; otherwise this player's own entity is
        cleaned up, then it takes over `other`'s body and entity and nulls `other`'s body. Both
        players belong to the same scene; the object carry and the flags stay. */
    method MoveAssign(other: Player)
      requires scene.Valid() && other.scene == scene && Owns() && other.Owns()
      requires other != this && rigidBody.Some? && other.rigidBody.Some? ==> entity != other.entity
      modifies this`rigidBody, this`entity, other`rigidBody, scene`components, scene.world`bodies
      ensures scene.Valid() && Owns() && other.Owns()
      ensures other == this ==> rigidBody == old(rigidBody) && scene.components == old(scene.components)
      ensures other != this ==>
        rigidBody == old(other.rigidBody) && entity == old(other.entity) && other.rigidBody.None?
      ensures other != this && old(rigidBody).Some? ==>
        scene.components == old(scene.components) - {old(entity)} &&
        scene.world.bodies == old(scene.world.bodies) - {old(rigidBody).value}
      ensures other != this && old(rigidBody).None? ==>
        scene.components == old(scene.components) && scene.world.bodies == old(scene.world.bodies)
    {
      if other == this {
        return;
      }
      Cleanup();
      rigidBody := other.rigidBody;
      entity := other.entity;
      other.rigidBody := None;
    }

    /** The jump gate of `UpdateInput`, reading the body's ground flag; a jump restarts the
        cooldown. Returns whether the upward push is applied. */
    method TryJump(space: bool, now: int) returns (jumped: bool)
      requires rigidBody.Some? && rigidBody.value in scene.world.bodies
      modifies this`lastJump
      ensures (jumped, lastJump) ==
        Jump(fly, scene.world.bodies[rigidBody.value].userData.onGround, space, now, old(lastJump))
    {
      var onGround := scene.world.bodies[rigidBody.value].userData.onGround;
      jumped := false;
      if (fly || (onGround && now - lastJump > JumpCooldown)) && space {
        jumped := true;
        lastJump := now;
      }
    }
  }

  /** The scene side of building a player: a new entity with a `PlayerComponent` and a new body
      of the (10, 20) capsule with mass 50 (the `PlayerComponent` is emplaced last in the
      source; nothing observes the order). The collider handle is released at the end, the
      body's user data keeping the shape alive. */
  method BuildPlayerEntity(scene: Scene) returns (e: Entity, b: BodyId)
    requires scene.Valid()
    modifies scene, scene.world`capsuleShapes, scene.world`handles, scene.world`nextShape,
      scene.world`bodies, scene.world`nextBody
    ensures scene.Valid()
    ensures e == old(scene.nextEntity) && e !in old(scene.components) && b !in old(scene.world.bodies)
    ensures scene.components == old(scene.components)[e := PlayerComponents(b)]
    ensures CapsuleKey(CapsuleRadius, CapsuleHeight) in scene.world.capsuleShapes
    ensures scene.world.bodies == old(scene.world.bodies)[b :=
      RigidBody(UserData(e, scene.world.capsuleShapes[CapsuleKey(CapsuleRadius, CapsuleHeight)], false),
                PlayerMass, true, true)]
    ensures scene.world.handles == old(scene.world.handles)
  {
    e := scene.CreateEntity(NoComponents.(player := true));
    b := AttachCapsuleBody(scene, e);
  }

  /** The body part of it: acquire the capsule, attach a body of it to `e`, release the handle. */
  method AttachCapsuleBody(scene: Scene, e: Entity) returns (b: BodyId)
    requires scene.Valid() && e in scene.components && scene.components[e].rigidBody.None?
    modifies scene`components, scene.world`capsuleShapes, scene.world`handles, scene.world`nextShape,
      scene.world`bodies, scene.world`nextBody
    ensures scene.Valid()
    ensures b !in old(scene.world.bodies)
    ensures scene.components == old(scene.components)[e := old(scene.components)[e].(rigidBody := Some(Some(b)))]
    ensures CapsuleKey(CapsuleRadius, CapsuleHeight) in scene.world.capsuleShapes
    ensures scene.world.bodies == old(scene.world.bodies)[b :=
      RigidBody(UserData(e, scene.world.capsuleShapes[CapsuleKey(CapsuleRadius, CapsuleHeight)], false),
                PlayerMass, true, true)]
    ensures scene.world.handles == old(scene.world.handles)
  {
    var collider := scene.world.GetCapsuleCollider(CapsuleRadius, CapsuleHeight);
    b := scene.AttachNewBody(e, collider, PlayerMass);
    scene.world.ReleaseShape(collider);
  }

  /** Replacing a player by a freshly built one, as pressing L does: the old player's entity
      and body are destroyed (once), the new ones stay, and the temporary is left owning
      nothing, so its own cleanup destroys nothing. */
  method ReplacePlayer(player: Player, now: int) returns (temp: Player)
    requires player.scene.Valid() && player.Owns() && player.rigidBody.Some?
    modifies player`rigidBody, player`entity, player.scene, player.scene.world
    ensures player.scene.Valid() && player.Owns() && player.rigidBody.Some?
    ensures temp.rigidBody.None? && temp != player
    ensures player.entity !in old(player.scene.components) && player.entity in player.scene.components
    ensures old(player.entity) !in player.scene.components
    ensures old(player.rigidBody).value !in player.scene.world.bodies
    ensures player.rigidBody.value !in old(player.scene.world.bodies)
  {
    ghost var e0, b0 := player.entity, player.rigidBody.value;
    temp := new Player(player.scene, now);
    player.MoveAssign(temp);
  }
}
