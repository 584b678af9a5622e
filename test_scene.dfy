/** The test scene's frame: a shape-cache collection at most once a second, the edit/play
    switch with its player rebuild, player movement and, only while playing, picking with the
    F key and the right mouse button, the carry update, the physics step followed by the ground
    check, the camera sync, and the debug spawn on T. */
module TestScene {
  import opened Wrappers
  import opened PhysicsWorld
  import opened Scene
  import opened ObjectCarry
  import opened Player
  import GameScene

  /** Milliseconds a collection window must exceed. */
  const TestGcWindow: int := 1000

  /** The debug spawn: 100 pencils sharing one (0.5, 1.0) capsule, each of mass 1. */
  const PencilRadius: real := 0.5
  const PencilHeight: real := 1.0
  const PencilCount: nat := 100
  const PencilMass: real := 1.0
  const PencilMeshes: seq<string> := ["pencil"]

  /** The force of a right-click drop. */
  const RightClickForce: real := 10.0

  /** The pick ray's filter: only bodies with non-zero mass. */
  function MassFilter(bodies: map<BodyId, RigidBody>): RayHit -> bool {
    (h: RayHit) => h.body in bodies && bodies[h.body].mass != 0.0
  }

  /** The entity of the nearest hit with a moving body, if any. */
  function PickTarget(bodies: map<BodyId, RigidBody>, hits: seq<RayHit>): (r: Option<Entity>)
    ensures r.Some? ==> exists h :: h in hits && h.entity == r.value && h.body in bodies && bodies[h.body].mass != 0.0
    ensures r.None? ==> forall h :: h in hits && h.body in bodies ==> bodies[h.body].mass == 0.0
  {
    var first := FirstHit(hits, MassFilter(bodies));
    if first.Some? then Some(first.value.entity) else None
  }

  /** Static bodies are never picked: the picked entity's own body has non-zero mass. */
  lemma PickedBodyMoves(comps: map<Entity, Components>, bodies: map<BodyId, RigidBody>, hits: seq<RayHit>)
    requires HitsLive(comps, hits) && PickTarget(bodies, hits).Some?
    ensures var e := PickTarget(bodies, hits).value;
      e in comps && BodyOf(comps[e]).Some? && BodyOf(comps[e]).value in bodies &&
      bodies[BodyOf(comps[e]).value].mass != 0.0
  {
    var e := PickTarget(bodies, hits).value;
    var h :| h in hits && h.entity == e && h.body in bodies && bodies[h.body].mass != 0.0;
    assert BodyOf(comps[h.entity]) == Some(h.body);
  }

  /** The hits whose entity is alive and stores the hit body: what `RaycastWorld` reports. */
  function LiveHits(comps: map<Entity, Components>, hits: seq<RayHit>): (r: seq<RayHit>)
    ensures HitsLive(comps, r)
    ensures forall h :: h in r <==> h in hits && h.entity in comps && BodyOf(comps[h.entity]) == Some(h.body)
  {
    Filter(hits, (h: RayHit) => h.entity in comps && BodyOf(comps[h.entity]) == Some(h.body))
  }

  /** What the carry holds after the F key (`Toggle`) and then the right mouse button, which
      drops whatever is held. */
  function Handle(s: Carry, f: bool, rightClick: bool, comps: map<Entity, Components>, target: Option<Entity>): (r: Carry)
    requires target.Some? ==> target.value in comps
    ensures rightClick ==> r == Empty
    ensures !rightClick ==> r == Toggle(s, f, comps, target)
  {
    var toggled := Toggle(s, f, comps, target);
    if rightClick then Empty else toggled
  }

  /** F held twice from empty hands over a movable target picks it up and drops it again. */
  lemma FTogglesCarrying(comps: map<Entity, Components>, target: Option<Entity>)
    requires target.Some? ==> target.value in comps
    ensures var once := Handle(Empty, true, false, comps, target);
      (target.Some? && BodyOf(comps[target.value]).Some? ==> once.carried == target) &&
      Handle(once, true, false, comps, target) == Empty
  {
  }

  /** The steps of one test frame. */
  datatype Step = CollectGarbage | RebuildPlayer | MovePlayer | HandleCarry | StepPhysics | CheckGround | SyncCamera | Spawn

  /** The steps a test frame takes: the collection when due, the rebuild when L switched to
      playing, player movement, and while playing the rest (`Played`). */
  function TestFrame(collect: bool, rebuild: bool, playing: bool, spawn: bool): seq<Step> {
    Prefix(collect, rebuild) + [MovePlayer] + (if playing then Played(spawn) else [])
  }

  function Prefix(collect: bool, rebuild: bool): seq<Step> {
    (if collect then [CollectGarbage] else []) + (if rebuild then [RebuildPlayer] else [])
  }

  /** The steps only a playing frame takes: the carry, the physics step, the ground check, the
      camera, and last the spawn on T. */
  function Played(spawn: bool): seq<Step> {
    [HandleCarry, StepPhysics, CheckGround, SyncCamera] + (if spawn then [Spawn] else [])
  }

  /** While playing, the ground check comes straight after the physics step of the same frame,
      after the carry update and before the camera. */
  lemma GroundCheckFollowsStep(collect: bool, rebuild: bool, spawn: bool)
    ensures var r := TestFrame(collect, rebuild, true, spawn);
      exists i :: 0 < i && i + 2 < |r| && r[i - 1] == HandleCarry && r[i] == StepPhysics &&
        r[i + 1] == CheckGround && r[i + 2] == SyncCamera
  {
    var p := Prefix(collect, rebuild) + [MovePlayer];
    var r := TestFrame(collect, rebuild, true, spawn);
    var i := |p| + 1;
    assert r == p + Played(spawn);
    assert r[i - 1] == Played(spawn)[0] && r[i] == Played(spawn)[1];
    assert r[i + 1] == Played(spawn)[2] && r[i + 2] == Played(spawn)[3];
  }

  /** Unlike the game scene, a paused test frame ignores T: it neither spawns nor steps. */
  lemma PausedFrameIgnoresT(collect: bool, rebuild: bool)
    ensures var r := TestFrame(collect, rebuild, false, true);
      Spawn !in r && StepPhysics !in r && r[|r| - 1] == MovePlayer
  {
  }

  /** The T key of the test scene: 100 entities, each with its own new body of mass 1 of the
      shared (0.5, 1.0) capsule and the "pencil" mesh. The handle is released afterwards. */
  method SpawnPencils(scene: Scene) returns (shape: ShapeId)
    requires scene.Valid()
    modifies scene, scene.world`capsuleShapes, scene.world`handles, scene.world`nextShape,
      scene.world`bodies, scene.world`nextBody
    ensures scene.Valid()
    ensures CapsuleKey(PencilRadius, PencilHeight) in scene.world.capsuleShapes &&
      shape == scene.world.capsuleShapes[CapsuleKey(PencilRadius, PencilHeight)]
    ensures scene.world.handles == old(scene.world.handles)
    ensures scene.nextEntity == old(scene.nextEntity) + PencilCount
    ensures scene.components ==
      old(scene.components) + SpawnedEntities(old(scene.nextEntity), old(scene.world.nextBody), PencilCount, PencilMeshes)
    ensures scene.world.bodies ==
      old(scene.world.bodies) + SpawnedBodies(old(scene.nextEntity), old(scene.world.nextBody), PencilCount, shape, PencilMass)
  {
    shape := AcquirePencilShape(scene);
    scene.SpawnAndRelease(PencilCount, shape, PencilMass, PencilMeshes);
  }

  /** `GetCapsuleCollider(0.5, 1.0)` on the scene's world. */
  method AcquirePencilShape(scene: Scene) returns (shape: ShapeId)
    requires scene.Valid()
    modifies scene.world`capsuleShapes, scene.world`handles, scene.world`nextShape
    ensures scene.Valid()
    ensures CapsuleKey(PencilRadius, PencilHeight) in scene.world.capsuleShapes &&
      shape == scene.world.capsuleShapes[CapsuleKey(PencilRadius, PencilHeight)]
    ensures scene.world.handles == old(scene.world.handles) + multiset{shape}
  {
    shape := scene.world.GetCapsuleCollider(PencilRadius, PencilHeight);
  }

  class TestScene {
    const scene: Scene
    const player: Player
    var playing: bool
    var gcLast: Option<int>

    /** The player owns a live player entity with its body, and its carry reads this scene. */
    ghost predicate Valid()
      reads this, scene, scene.world, player, player.objectCarry
    {
      scene.Valid() && player.scene == scene && player.Owns() && player.rigidBody.Some? &&
      player.objectCarry.Valid() && player.objectCarry.registry == scene
    }

    constructor(scene: Scene, now: int)
      requires scene.Valid()
      modifies scene, scene.world
      ensures Valid() && this.scene == scene && fresh(player) && !playing && gcLast.None?
    {
      this.scene := scene;
      player := new Player(scene, now);
      playing := false;
      gcLast := None;
    }

    /** The throttled collection at the start of a frame. */
    method CollectIfDue(now: int) returns (collected: bool)
      requires Valid()
      modifies this`gcLast, scene.world`boxShapes, scene.world`sphereShapes, scene.world`capsuleShapes
      ensures Valid()
      ensures gcLast.Some? && (collected, gcLast.value) == GameScene.GcStep(old(gcLast), now, TestGcWindow)
      ensures scene.world.LiveShapes() == old(scene.world.LiveShapes())
      ensures collected ==>
        scene.world.boxShapes == Pruned(old(scene.world.boxShapes), scene.world.LiveShapes()) &&
        scene.world.sphereShapes == Pruned(old(scene.world.sphereShapes), scene.world.LiveShapes()) &&
        scene.world.capsuleShapes == Pruned(old(scene.world.capsuleShapes), scene.world.LiveShapes())
      ensures !collected ==>
        scene.world.boxShapes == old(scene.world.boxShapes) &&
        scene.world.sphereShapes == old(scene.world.sphereShapes) &&
        scene.world.capsuleShapes == old(scene.world.capsuleShapes)
    {
      var step := GameScene.GcStep(gcLast, now, TestGcWindow);
      collected := step.0;
      if collected {
        scene.world.Update();
      }
      gcLast := Some(step.1);
    }

    /** The L key: `Play`, and on switching to playing the player rebuilt by move assignment. */
    method SwitchMode(playsAfterL: bool, now: int)
      requires Valid()
      modifies this`playing, player`rigidBody, player`entity, scene, scene.world
      ensures Valid() && playing == playsAfterL
    {
      playing := playsAfterL;
      if playing {
        var temp := ReplacePlayer(player, now);
      }
    }

    /** Player movement: flying exactly while not playing, and the jump gate. */
    method MovePlayer(space: bool, now: int)
      requires Valid()
      modifies player`fly, player`lastJump
      ensures Valid() && player.fly == !playing
    {
      player.fly := !playing;
      assert BodyOf(scene.components[player.entity]) == player.rigidBody;
      var jumped := player.TryJump(space, now);
    }

    /** The F key and the right mouse button: F toggles carrying `target` (a pickup goes through
        `SetCarriedEntity`, a drop has no impulse), the right button then drops whatever is held
        with force 10 along `front`. Returns the right-click impulse. */
    method PickOrDrop(target: Option<Entity>, f: bool, rightClick: bool, front: Vec3) returns (impulse: Option<Impulse>)
      requires Valid() && (target.Some? ==> target.value in scene.components)
      modifies player.objectCarry`carriedEntity, player.objectCarry`body, player.objectCarry`pickupDistance
      ensures Valid()
      ensures player.objectCarry.State() == Handle(old(player.objectCarry.State()), f, rightClick, scene.components, target)
      ensures var toggled := Toggle(old(player.objectCarry.State()), f, scene.components, target);
        impulse == if rightClick then DropImpulse(toggled.body, front, RightClickForce) else None
    {
      var carry := player.objectCarry;
      if f {
        if carry.carriedEntity.None? {
          carry.SetCarriedEntity(target);
        } else {
          var _ := carry.DropCarriedEntity(Vec3(0.0, 0.0, 0.0), 0.0);
        }
      }
      impulse := None;
      if rightClick {
        impulse := carry.DropCarriedEntity(front, RightClickForce);
      }
    }

    /** Picking on the filtered ray cast (`hits`), then the carry following the holder at
        `holderPos` facing `front`; `pos` and `distance` are the held body's position and its
        distance from the holder. Returns the right-click impulse and the carry's velocity. */
    method HandleCarry(hits: seq<RayHit>, f: bool, rightClick: bool, front: Vec3, pos: Vec3, holderPos: Vec3,
                       distance: real) returns (impulse: Option<Impulse>, velocity: Option<Vec3>)
      requires Valid() && HitsLive(scene.components, hits) && IsDistance(distance, pos, holderPos)
      modifies player.objectCarry`carriedEntity, player.objectCarry`body, player.objectCarry`pickupDistance
      ensures Valid()
      ensures var carry := player.objectCarry;
        var handled := Handle(old(carry.State()), f, rightClick, scene.components, PickTarget(scene.world.bodies, hits));
        var r := UpdateAsWritten(handled, carry.dropDistance, pos, holderPos, front, distance);
        carry.State() == r.next && velocity == r.velocity
      ensures rightClick ==> player.objectCarry.State() == Empty && velocity.None?
    {
      var target := PickTarget(scene.world.bodies, hits);
      if target.Some? {
        PickedBodyMoves(scene.components, scene.world.bodies, hits);
      }
      impulse := PickOrDrop(target, f, rightClick, front);
      velocity := player.objectCarry.Update(pos, holderPos, front, distance);
    }

    /** The ground check right after the simulation step; `grounded` is what Bullet reports. */
    method CheckGround(grounded: set<BodyId>)
      requires Valid()
      modifies scene.world`bodies
      ensures Valid()
      ensures scene.world.bodies.Keys == old(scene.world.bodies).Keys
      ensures forall b :: b in scene.world.bodies ==> scene.world.bodies[b].userData.onGround == (b in grounded)
    {
      scene.world.CheckObjectsTouchingGround(grounded);
      assert forall e :: e in scene.components && BodyOf(scene.components[e]).Some? ==>
        BodyOf(scene.components[e]).value in old(scene.world.bodies);
    }

    /** The steps before player movement: the collection and the L switch. */
    method Open(now: int, l: bool, playsAfterL: bool) returns (frame: seq<Step>)
      requires Valid()
      modifies this`playing, this`gcLast, scene, scene.world, player`rigidBody, player`entity
      ensures Valid()
      ensures playing == if l then playsAfterL else old(playing)
      ensures frame == Prefix(GameScene.GcStep(old(gcLast), now, TestGcWindow).0, l && playsAfterL)
      ensures gcLast == Some(GameScene.GcStep(old(gcLast), now, TestGcWindow).1)
    {
      var collected := CollectIfDue(now);
      frame := if collected then [CollectGarbage] else [];
      if l {
        SwitchMode(playsAfterL, now);
        if playing {
          frame := frame + [RebuildPlayer];
        }
      }
    }

    /** The steps of a playing frame after movement: picking and the carry, the ground check
        after the step, and the spawn on T. A right click leaves nothing held. */
    method Play(hits: seq<RayHit>, f: bool, rightClick: bool, front: Vec3, pos: Vec3, holderPos: Vec3,
                distance: real, grounded: set<BodyId>, t: bool) returns (steps: seq<Step>)
      requires Valid() && IsDistance(distance, pos, holderPos)
      modifies scene, scene.world`capsuleShapes, scene.world`handles, scene.world`nextShape,
        scene.world`bodies, scene.world`nextBody,
        player.objectCarry`carriedEntity, player.objectCarry`body, player.objectCarry`pickupDistance
      ensures Valid() && steps == Played(t)
      ensures rightClick ==> player.objectCarry.State() == Empty
    {
      var impulse, velocity := HandleCarry(LiveHits(scene.components, hits), f, rightClick, front, pos, holderPos, distance);
      CheckGround(grounded);
      steps := [Step.HandleCarry, StepPhysics, Step.CheckGround, SyncCamera];
      if t {
        Spawn();
        steps := steps + [Step.Spawn];
      }
    }

    /** One frame at time `now`. `l`, `f`, `t` and `rightClick` say what was just pressed,
        `playsAfterL` what `Play` leaves, `hits` what the filtered ray cast reports, `grounded`
        the bodies Bullet reports on the ground after the step. Returns the steps the frame
        took. A paused frame leaves the carry alone; a right click leaves nothing held. */
    method Update(now: int, l: bool, playsAfterL: bool, space: bool, hits: seq<RayHit>, f: bool, rightClick: bool,
                  front: Vec3, pos: Vec3, holderPos: Vec3, distance: real, grounded: set<BodyId>, t: bool)
      returns (frame: seq<Step>)
      requires Valid() && IsDistance(distance, pos, holderPos)
      modifies this`playing, this`gcLast, scene, scene.world, player`rigidBody, player`entity,
        player`fly, player`lastJump,
        player.objectCarry`carriedEntity, player.objectCarry`body, player.objectCarry`pickupDistance
      ensures Valid()
      ensures playing == if l then playsAfterL else old(playing)
      ensures frame == TestFrame(GameScene.GcStep(old(gcLast), now, TestGcWindow).0, l && playsAfterL, playing, t)
      ensures gcLast == Some(GameScene.GcStep(old(gcLast), now, TestGcWindow).1)
      ensures player.fly == !playing
      ensures !playing ==> player.objectCarry.State() == old(player.objectCarry.State())
      ensures playing && rightClick ==> player.objectCarry.State() == Empty
    {
      frame := Open(now, l, playsAfterL);
      MovePlayer(space, now);
      frame := frame + [Step.MovePlayer];
      if !playing {
        return;
      }
      var steps := Play(hits, f, rightClick, front, pos, holderPos, distance, grounded, t);
      frame := frame + steps;
    }

    /** The T key: the pencil spawn leaves the player's entity as it was. */
    method Spawn()
      requires Valid()
      modifies scene, scene.world`capsuleShapes, scene.world`handles, scene.world`nextShape,
        scene.world`bodies, scene.world`nextBody
      ensures Valid()
      ensures scene.nextEntity == old(scene.nextEntity) + PencilCount
    {
      ghost var c0, e0, b0 := scene.components, scene.nextEntity, scene.world.nextBody;
      var shape := SpawnPencils(scene);
      GameScene.SpawnKeepsOld(c0, e0, b0, PencilCount, PencilMeshes, player.entity);
    }
  }
}
