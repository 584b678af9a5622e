/** The game scene's frame: a throttled shape-cache collection, the edit/play switch with its
    player rebuild, a stress spawn, player movement, and, only while playing, key mapping,
    the physics step, the camera sync and the scripts. Each frame is recorded as the sequence
    of steps it takes; the steps that are Bullet numerics or rendering appear only as events. */
module GameScene {
  import opened Wrappers
  import opened PhysicsWorld
  import opened Scene
  import opened Player
  import opened MainScript
  import opened GameActions

  /** Milliseconds a collection window must exceed. */
  const GameGcWindow: int := 5000

  /** One check of a collection throttle kept in a function-local `static TimePoint`. The
      first call initialises it to the current time, so it does not collect; afterwards it
      collects when strictly more than `window` has passed and then restarts the window.
      Returns whether it collects and the new timestamp. */
  function GcStep(last: Option<int>, now: int, window: int): (r: (bool, int))
    ensures r.0 <==> last.Some? && now - last.value > window
    ensures r.1 == if r.0 || last.None? then now else last.value
  {
    if last.None? then (false, now)
    else if now - last.value > window then (true, now) else (false, last.value)
  }

  /** The frames at which a throttle starting from `last` collects, over frames at `times`. */
  function GcRuns(last: Option<int>, times: seq<int>, window: int): seq<int>
    decreases |times|
  {
    if |times| == 0 then []
    else
      var step := GcStep(last, times[0], window);
      (if step.0 then [times[0]] else []) + GcRuns(Some(step.1), times[1..], window)
  }

  /** The timestamp of a throttle that has been called never runs ahead of the clock. */
  ghost predicate Behind(last: Option<int>, times: seq<int>) {
    (forall i, j :: 0 <= i < j < |times| ==> times[i] <= times[j]) &&
    (last.Some? && |times| > 0 ==> last.value <= times[0])
  }

  /** Every collection happens at one of the frames, and after the first it lies more than
      `window` after the previous one, on a clock that does not run backwards. */
  lemma {:induction false} GcRunsSpaced(last: Option<int>, times: seq<int>, window: int)
    requires Behind(last, times) && window >= 0
    ensures forall k :: 0 <= k < |GcRuns(last, times, window)| ==> GcRuns(last, times, window)[k] in times
    ensures forall k :: 0 < k < |GcRuns(last, times, window)| ==>
      GcRuns(last, times, window)[k] - GcRuns(last, times, window)[k - 1] > window
    ensures |GcRuns(last, times, window)| > 0 && last.Some? ==>
      GcRuns(last, times, window)[0] - last.value > window
    decreases |times|
  {
    if |times| > 0 {
      var step := GcStep(last, times[0], window);
      var rest := times[1..];
      assert Behind(Some(step.1), rest) by {
        assert forall i, j :: 0 <= i < j < |rest| ==> rest[i] == times[i + 1] && rest[j] == times[j + 1];
        if |rest| > 0 {
          assert rest[0] == times[1];
        }
      }
      GcRunsSpaced(Some(step.1), rest, window);
      var tail := GcRuns(Some(step.1), rest, window);
      var all := GcRuns(last, times, window);
      assert all == (if step.0 then [times[0]] else []) + tail;
      forall k | 0 <= k < |tail| ensures tail[k] in times {
        assert tail[k] in rest;
      }
      if |tail| > 0 {
        // The first collection of the tail lies more than a window after the timestamp,
        // which is the frame's own time when the frame collected.
        assert tail[0] - step.1 > window;
        if !step.0 && last.Some? {
          assert step.1 == last.value;
        }
      }
    }
  }

  /** The very first frame never collects. */
  lemma FirstFrameKeepsCache(now: int, window: int)
    ensures GcStep(None, now, window) == (false, now)
  {
  }

  /** The steps of one frame. */
  datatype Event = CollectGarbage | RebuildPlayer | SpawnStress | MovePlayer | MapKeys | StepPhysics | SyncCamera | RunScripts

  /** The steps a game frame takes: the collection when due, the player rebuilt when L
      switched to playing, the stress spawn on T, player movement, and the four playing steps
      in their order. */
  function GameFrame(collect: bool, rebuild: bool, spawn: bool, playing: bool): seq<Event> {
    Opening(collect, rebuild, spawn) + [MovePlayer] +
    (if playing then [MapKeys, StepPhysics, SyncCamera, RunScripts] else [])
  }

  /** The steps before player movement. */
  function Opening(collect: bool, rebuild: bool, spawn: bool): seq<Event> {
    (if collect then [CollectGarbage] else []) + (if rebuild then [RebuildPlayer] else []) +
    (if spawn then [SpawnStress] else [])
  }

  /** A frame collects, rebuilds the player and spawns exactly when asked to, and always
      moves the player. */
  lemma GameFrameSteps(collect: bool, rebuild: bool, spawn: bool, playing: bool)
    ensures var r := GameFrame(collect, rebuild, spawn, playing);
      (CollectGarbage in r <==> collect) && (RebuildPlayer in r <==> rebuild) && (SpawnStress in r <==> spawn) &&
      MovePlayer in r
  {
  }

  /** A paused frame ends with player movement: no key mapping, physics, camera or scripts. */
  lemma PausedFrameStopsAtMovement(collect: bool, rebuild: bool, spawn: bool)
    ensures var r := GameFrame(collect, rebuild, spawn, false);
      r[|r| - 1] == MovePlayer && MapKeys !in r && StepPhysics !in r && SyncCamera !in r && RunScripts !in r
  {
  }

  /** A playing frame ends by mapping keys, then stepping physics, then syncing the camera,
      then running the scripts, each once. */
  lemma PlayingFrameOrder(collect: bool, rebuild: bool, spawn: bool)
    ensures var r := GameFrame(collect, rebuild, spawn, true);
      |r| >= 5 && r[|r| - 5..] == [MovePlayer, MapKeys, StepPhysics, SyncCamera, RunScripts] &&
      forall i :: 0 <= i < |r| - 5 ==> r[i] == CollectGarbage || r[i] == RebuildPlayer || r[i] == SpawnStress
  {
    var p := Opening(collect, rebuild, spawn);
    var r := GameFrame(collect, rebuild, spawn, true);
    assert r == p + [MovePlayer, MapKeys, StepPhysics, SyncCamera, RunScripts];
    assert r[..|r| - 5] == p;
    forall i | 0 <= i < |r| - 5 ensures r[i] == CollectGarbage || r[i] == RebuildPlayer || r[i] == SpawnStress {
      assert r[i] == p[i];
    }
  }

  /** The stress spawn's shape: a 1 x 1 x 1 box. */
  const StressBox: Vec3 := Vec3(1.0, 1.0, 1.0)
  const StressCount: nat := 50
  const StressMass: real := 100.0
  const StressMeshes: seq<string> := ["candle", "globe"]

  /** The T key of the game scene: 50 entities, the i-th with its own new body of the shared
      box of mass 100 and the mesh "candle" or "globe" by `i % 2`. The handle is released
      afterwards; the bodies' user data keep the box alive. */
  method SpawnCandlesAndGlobes(scene: Scene) returns (shape: ShapeId)
    requires scene.Valid()
    modifies scene, scene.world`boxShapes, scene.world`handles, scene.world`nextShape,
      scene.world`bodies, scene.world`nextBody
    ensures scene.Valid()
    ensures StressBox in scene.world.boxShapes && shape == scene.world.boxShapes[StressBox]
    ensures scene.world.handles == old(scene.world.handles)
    ensures scene.nextEntity == old(scene.nextEntity) + StressCount
    ensures scene.components ==
      old(scene.components) + SpawnedEntities(old(scene.nextEntity), old(scene.world.nextBody), StressCount, StressMeshes)
    ensures scene.world.bodies ==
      old(scene.world.bodies) + SpawnedBodies(old(scene.nextEntity), old(scene.world.nextBody), StressCount, shape, StressMass)
  {
    shape := AcquireStressBox(scene);
    scene.SpawnAndRelease(StressCount, shape, StressMass, StressMeshes);
  }

  /** `GetBoxCollider({1, 1, 1})` on the scene's world, which leaves the registry and the
      bodies as they are. */
  method AcquireStressBox(scene: Scene) returns (shape: ShapeId)
    requires scene.Valid()
    modifies scene.world`boxShapes, scene.world`handles, scene.world`nextShape
    ensures scene.Valid()
    ensures StressBox in scene.world.boxShapes && shape == scene.world.boxShapes[StressBox]
    ensures scene.world.handles == old(scene.world.handles) + multiset{shape}
  {
    shape := scene.world.GetBoxCollider(StressBox);
  }

  /** Entities alive before a spawn keep their components through it. */
  lemma SpawnKeepsOld(c0: map<Entity, Components>, e0: Entity, b0: BodyId, n: nat, meshes: seq<string>, e: Entity)
    requires |meshes| > 0 && e in c0 && e < e0
    ensures e in c0 + SpawnedEntities(e0, b0, n, meshes) && (c0 + SpawnedEntities(e0, b0, n, meshes))[e] == c0[e]
  {
    SpawnedEntitiesContents(e0, b0, n, meshes);
  }

  class GameScene {
    const scene: Scene
    const player: Player
    const mainScript: MainScript
    const actions: Actions
    var playing: bool
    var gcLast: Option<int>

    /** The scene's player owns a live player entity with its body. */
    ghost predicate Valid()
      reads this, scene, scene.world, player
    {
      scene.Valid() && player.scene == scene && player.Owns() && player.rigidBody.Some?
    }

    /** Building the scene over a fresh registry and world at time `now`: the player, the
        main script and the actions are created; `playing` is what the scene builder's `Play`
        leaves. */
    constructor(scene: Scene, now: int, playing: bool)
      requires scene.Valid()
      modifies scene, scene.world
      ensures Valid() && this.scene == scene && fresh(player) && fresh(mainScript) && fresh(actions)
      ensures this.playing == playing && gcLast.None?
      ensures |mainScript.scripts| == 4
    {
      this.scene := scene;
      player := new Player(scene, now);
      mainScript := new MainScript();
      actions := new Actions();
      this.playing := playing;
      gcLast := None;
    }

    /** The throttled collection at the start of a frame. */
    method CollectIfDue(now: int) returns (collected: bool)
      requires Valid()
      modifies this`gcLast, scene.world`boxShapes, scene.world`sphereShapes, scene.world`capsuleShapes
      ensures Valid()
      ensures gcLast.Some? && (collected, gcLast.value) == GcStep(old(gcLast), now, GameGcWindow)
      ensures scene.world.LiveShapes() == old(scene.world.LiveShapes())
      ensures collected ==>
        scene.world.boxShapes == Pruned(old(scene.world.boxShapes), scene.world.LiveShapes()) &&
        scene.world.sphereShapes == Pruned(old(scene.world.sphereShapes), scene.world.LiveShapes()) &&
        scene.world.capsuleShapes == Pruned(old(scene.world.capsuleShapes), scene.world.LiveShapes())
      ensures !collected ==>
        scene.world.boxShapes == old(scene.world.boxShapes) &&
        scene.world.sphereShapes == old(scene.world.sphereShapes) &&
        scene.world.capsuleShapes == old(scene.world.capsuleShapes)
    {
      var step := GcStep(gcLast, now, GameGcWindow);
      collected := step.0;
      if collected {
        scene.world.Update();
      }
      gcLast := Some(step.1);
    }

    /** The T key: the stress spawn leaves the player's entity as it was. */
    method Spawn()
      requires Valid()
      modifies scene, scene.world`boxShapes, scene.world`handles, scene.world`nextShape,
        scene.world`bodies, scene.world`nextBody
      ensures Valid()
      ensures scene.nextEntity == old(scene.nextEntity) + StressCount
    {
      ghost var c0, e0, b0 := scene.components, scene.nextEntity, scene.world.nextBody;
      var shape := SpawnCandlesAndGlobes(scene);
      SpawnKeepsOld(c0, e0, b0, StressCount, StressMeshes, player.entity);
    }

    /** The L key: the scene builder's `Play` leaves `playsAfterL`, and switching to playing
        rebuilds the player by move assignment, which destroys the old player's entity. */
    method SwitchMode(playsAfterL: bool, now: int)
      requires Valid()
      modifies this`playing, player`rigidBody, player`entity, scene, scene.world
      ensures Valid() && playing == playsAfterL
    {
      playing := playsAfterL;
      if playing {
        var temp := ReplacePlayer(player, now);
      }
    }

    /** Player movement: flying exactly while not playing, and the jump gate. */
    method MovePlayer(space: bool, now: int)
      requires Valid()
      modifies player`fly, player`lastJump
      ensures Valid() && player.fly == !playing
    {
      player.fly := !playing;
      OwnedBodyLive();
      var jumped := player.TryJump(space, now);
    }

    /** The steps of a frame before player movement; returns them. */
    method Open(now: int, l: bool, playsAfterL: bool, t: bool) returns (frame: seq<Event>)
      requires Valid()
      modifies this`playing, this`gcLast, scene, scene.world, player`rigidBody, player`entity
      ensures Valid()
      ensures playing == if l then playsAfterL else old(playing)
      ensures frame == Opening(GcStep(old(gcLast), now, GameGcWindow).0, l && playsAfterL, t)
      ensures gcLast == Some(GcStep(old(gcLast), now, GameGcWindow).1)
    {
      var collected := CollectIfDue(now);
      frame := if collected then [CollectGarbage] else [];
      if l {
        SwitchMode(playsAfterL, now);
        if playing {
          frame := frame + [RebuildPlayer];
        }
      }
      if t {
        Spawn();
        frame := frame + [SpawnStress];
      }
    }

    /** One frame at time `now`. `l` and `t` say whether L and T were just pressed, and
        `playsAfterL` what the scene builder's `Play` leaves when L is. Returns the steps the
        frame took. While not playing the scripts do not run. */
    method Update(now: int, l: bool, playsAfterL: bool, t: bool, space: bool) returns (frame: seq<Event>)
      requires Valid()
      modifies this`playing, this`gcLast, scene, scene.world, player, mainScript`scripts
      ensures Valid()
      ensures playing == if l then playsAfterL else old(playing)
      ensures frame == GameFrame(GcStep(old(gcLast), now, GameGcWindow).0, l && playsAfterL, t, playing)
      ensures gcLast == Some(GcStep(old(gcLast), now, GameGcWindow).1)
      ensures player.fly == !playing
      ensures !playing ==> mainScript.scripts == old(mainScript.scripts)
      ensures playing ==> multiset(mainScript.scripts) == multiset(Unmarked(old(mainScript.scripts)))
    {
      frame := Open(now, l, playsAfterL, t);
      MovePlayer(space, now);
      frame := frame + [Event.MovePlayer];
      if !playing {
        return;
      }
      var updated := mainScript.Update();
      frame := frame + [MapKeys, StepPhysics, SyncCamera, RunScripts];
    }

    /** The player's body is in the world. */
    lemma OwnedBodyLive()
      requires Valid()
      ensures player.rigidBody.value in scene.world.bodies
    {
      assert BodyOf(scene.components[player.entity]) == player.rigidBody;
    }
  }
}
