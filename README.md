# FlashRead, modelled in Dafny

FlashRead is a reading-skills game. It has three parts: a C++ game compiled to WebAssembly, a C# ASP.NET server, and a React client. This project models the deterministic core of all three and proves properties of the model.

- **Physics bridge of the wasm game** (`physics_world`, `scene`, `player`, `object_carry`, `game_scene`, `test_scene`).
  - The `PhysicsWorld` shape cache keeps one weak table per shape kind, keyed by the exact descriptor, and `Update` compacts it.
  - Rigid bodies are created and destroyed, with their user data.
  - Ray casts are sorted nearest first.
  - The scene's destroy hook frees a body when its entity dies.
  - The player owns its body through a pointer that is moved and nulled.
  - The carry of one object has a pickup-distance latch and a drop rule.
  - The per-frame ordering and the throttled compaction of the two scenes are modelled.
- **Gameplay scripts** (`game_actions`, `main_script`, `held_object_script`, `object_interact_script`, `secret_door_script`).
  - The main script prunes its sub-scripts by swap-and-pop.
  - A pickup request is a flag the next update consumes.
  - Reading a hint book disables actions and re-enables them.
  - The secret-door keypad has a one-second throttle and a win reported once.
  - `debug_api.py` (`debug_api`) rewrites paths and names saved scene files.
- **Server** (`database`, `user_handler`, `leaderboards`, `session_manager`, `history_manager`, `chat_controller`, `user_controller`, `replies`, `exception_middleware`, `connection_string_builder`, `task3_hint_generator`, `task3`).
  - The EF Core tables are maps keyed as the database keys them.
  - Registration runs its uniqueness checks, and deletion cascades.
  - The two LINQ leaderboards are modelled, and so is the session table with its two-minute idle limit.
  - Task history is appended, and the global chat keeps a hundred-chat window.
  - The controllers' guard-clause order is modelled.
  - The exception-to-status mapping has a JSON body.
  - The connection string is modelled, and so are the book-room door code and its hints.
- **Client helpers** (`timer_input`, `timer_mode2`, `mode2_task`, `table_sort`, `leaderboard_table`, `table_component`, `bullet_point`, `question_points`, `user_page`, `search`, `forms`, `register_page`, `login_page`, `change_password`, `settings_page`).
  - The timer input parses and formats digits, and the game timer counts.
  - "Catch the Word" has a collision pass and health rules.
  - Tables sort with a toggle rule.
  - Answers are coloured, profile history is aggregated, and the user search is filtered.
  - The account forms follow decision tables.
  - Themes and fonts map to CSS values.

The shared modules are `wrappers` (Option and Result), `text` (split and join, search, ASCII case, decimal printing, padding) and `sorting` (a stable insertion sort over a total preorder).

Code that changes state in place becomes a class with `modifies` frames. Each such method is proved against a function of the old state, and that function's properties are proved as lemmas. Pure code becomes functions and lemmas.

Several inputs become parameters:
- the clock;
- `Guid.NewGuid` ids;
- the seeded .NET `Random` and `Math.random`;
- BCrypt's hash and verify;
- the distances Bullet reports;
- the player-collision test of "Catch the Word";
- locale date formatting;
- the bytes of the default picture file.

Two points about the physics bridge's interface:
- `PhysicsWorld.h` declares the cache's maintenance pass as `Update()`. The scenes reach it through `CollectGarbageMemory` and call `Update(dt)` for the physics step. Compaction is modelled once, as `PhysicsWorld.World.Update`, and the step is an abstract event.
- The scenes and scripts pass `RaycastWorld` a filter for the entities a hit may belong to. The model applies the caller's filter (`PhysicsWorld.Filter`) to the hits Bullet reports, then sorts them (`PhysicsWorld.Raycast`).

The carry classes (`ObjectCarry.Carry`, `HeldObjectScript`, the scenes) follow `ObjectCarry::Update` as written, which never reads `canDropByItself`. The rule that honours the flag is kept beside it as the reference of the intended behaviour (see "## Findings").

## Model

| member | source | states |
|---|---|---|
| PhysicsWorld.Pruned | client/wasm/src/core/PhysicsWorld.h:35-37 | the compacted table keeps exactly the entries whose shape is still alive, each with its shape unchanged |
| PhysicsWorld.PrunedIdempotent | client/wasm/src/core/PhysicsWorld.h:35-37 | compacting an already compacted table changes nothing |
| PhysicsWorld.PrunedAllLive | client/wasm/src/core/PhysicsWorld.h:35-37 | after compaction every entry refers to a live shape, and no live entry was dropped |
| PhysicsWorld.Acquire | client/wasm/src/core/PhysicsWorld.h:22-24 | a shape request returns the cached shape when its weak reference can be locked; otherwise it makes a new shape and stores it under the descriptor; either way the table then maps the descriptor to the returned shape |
| PhysicsWorld.AcquireTwiceSame | client/wasm/src/core/PhysicsWorld.h:22-24 | two requests for one descriptor return the same shape while the first result is still held |
| PhysicsWorld.AcquireKeepsOtherKeys | client/wasm/src/core/PhysicsWorld.h:22-24 | a request never adds, removes or changes the entry of another descriptor |
| PhysicsWorld.Raycast | client/wasm/src/core/PhysicsWorld.h:33 | a ray cast returns exactly the hits Bullet reports, as a permutation; without `sortByDist` they stay in Bullet's order |
| PhysicsWorld.RaycastSortedNearestFirst | client/wasm/src/core/PhysicsWorld.h:33 | with `sortByDist` the hits are ordered by distance, so the first one is a nearest hit |
| PhysicsWorld.Filter | client/wasm/src/game/TestScene.cpp:51-54 | the filtered ray cast keeps exactly the hits the caller's filter accepts, and never more hits than there were |
| PhysicsWorld.FirstHit | client/wasm/src/game/TestScene.cpp:55-59 | the first record of a sorted, filtered ray cast is an accepted hit nearest of all accepted hits; no record means no hit was accepted |
| PhysicsWorld.World.constructor | client/wasm/src/core/PhysicsWorld.h:19 | a new world has empty shape tables, no bodies and no outstanding handles |
| PhysicsWorld.World.GetBoxCollider | client/wasm/src/core/PhysicsWorld.h:22 | returns the cached box for these half extents if it is alive, else a new id; the caller gains one handle; the box table maps the half extents to the result |
| PhysicsWorld.World.GetSphereCollider | client/wasm/src/core/PhysicsWorld.h:23 | the same lookup as the box, in the sphere table keyed by radius |
| PhysicsWorld.World.GetCapsuleCollider | client/wasm/src/core/PhysicsWorld.h:24 | the same lookup as the box, in the capsule table keyed by radius and height |
| PhysicsWorld.World.ReleaseShape | client/wasm/src/game/TestScene.cpp:86-94 | when the caller's `shared_ptr` goes out of scope, exactly one of its handles is removed |
| PhysicsWorld.World.CreateRigidBody | client/wasm/src/core/PhysicsWorld.h:25 | adds exactly one new body, which has a fresh id. It records the entity and the shape, starts off the ground, and collides and falls under gravity |
| PhysicsWorld.World.DestroyRigidBody | client/wasm/src/core/PhysicsWorld.h:26 | removes exactly the given body from the world; a null body removes nothing |
| PhysicsWorld.World.SetBodyPhysics | client/wasm/src/game/scripts/ObjectInteractScript.cpp:51-52 | changes only the collision and gravity flags of one body |
| PhysicsWorld.World.CheckObjectsTouchingGround | client/wasm/src/core/PhysicsWorld.h:39 | sets each body's on-ground flag to whether that body touches the ground, and changes nothing else |
| PhysicsWorld.World.PruneTable | client/wasm/src/core/PhysicsWorld.h:35-37 | the key-by-key loop yields exactly `Pruned` of the table |
| PhysicsWorld.World.Update | client/wasm/src/core/PhysicsWorld.h:35-37 | the three tables lose exactly their expired entries; bodies, handles and therefore the set of live shapes are unchanged |
| Scene.BodyOf | client/wasm/src/core/Scene.cpp:11 | an entity has a body exactly when it holds a `RigidBodyComponent` with a non-null body |
| Scene.OwnedBodies | client/wasm/src/core/Scene.cpp:10-13 | while entities and bodies correspond one to one, the bodies owned by an entity are exactly the one its component stores |
| Scene.SpawnedEntitiesContents | client/wasm/src/game/GameScene.cpp:67-73 | a spawn of n creates entities e0 .. e0+n. The i-th holds body b0+i and the mesh at i modulo the number of meshes |
| Scene.SpawnedBodiesContents | client/wasm/src/game/GameScene.cpp:67-73 | a spawn of n creates bodies b0 .. b0+n. The i-th is owned by entity e0+i and has the shared shape and mass |
| Scene.SpawnKeepsConsistent | client/wasm/src/game/GameScene.cpp:67-73 | after a spawn, the registry and the world still correspond one to one |
| Scene.Scene.constructor | client/wasm/src/core/Scene.cpp:5-8 | a new scene has no entities, no bodies and no handles, and satisfies the registry/world correspondence |
| Scene.Scene.CreateEntity | client/wasm/src/game/GameScene.cpp:68 | `registry.create()`: adds a fresh entity id above every existing one and keeps the correspondence |
| Scene.Scene.SetComponents | client/wasm/src/game/TestScene.cpp:60-62 | changing the components of a live entity without touching its body changes exactly that entity |
| Scene.Scene.ReleaseShape | client/wasm/src/game/TestScene.cpp:86-94 | releasing a caller's shape handle removes exactly one handle and keeps the scene valid |
| Scene.Scene.SetBodyPhysics | client/wasm/src/game/scripts/ObjectInteractScript.cpp:51-52 | changes only one body's collision and gravity flags and keeps the correspondence |
| Scene.Scene.AttachNewBody | client/wasm/src/game/GameScene.cpp:69-71 | adds one new body owned by the entity, and the entity's `RigidBodyComponent` stores it |
| Scene.Scene.OnDestroyRigidBody | client/wasm/src/core/Scene.cpp:10-13 | the destroy hook removes exactly the body stored in the component, or nothing when that body is null |
| Scene.Scene.Destroy | client/wasm/src/core/Scene.cpp:7-13 | destroying an entity removes it and exactly the bodies it owns (the body its component stores) |
| Scene.Scene.DestroyAll | client/wasm/src/game/scripts/SecretDoorScript.cpp:81 | destroying a set of entities removes them and exactly the bodies they own |
| Scene.Scene.Clear | client/wasm/src/core/Scene.cpp:15-17 | clearing the registry leaves no entity and no body |
| Scene.Scene.SpawnBodies | client/wasm/src/game/GameScene.cpp:67-73 | the stress spawn adds exactly `SpawnedEntities` and `SpawnedBodies`, changes nothing that existed, and keeps the correspondence |
| Scene.Scene.SpawnAndRelease | client/wasm/src/game/TestScene.cpp:84-94 | a stress spawn over a held shape, followed by releasing that one handle |
| Scene.Scene.SpawnLoop | client/wasm/src/game/GameScene.cpp:67-73 | the spawn loop's maps end up as the union of the old maps with the spawned entities and bodies |
| Scene.Scene.SpawnOne | client/wasm/src/game/GameScene.cpp:68-72 | one turn of the loop: one new entity holding one new body and the mesh |
| ObjectCarry.DropImpulse | client/wasm/src/game/ObjectCarry.cpp:20-25 | an impulse is applied exactly when a body is held and the force is positive, and it goes to the held body |
| ObjectCarry.CarryTarget | client/wasm/src/game/ObjectCarry.cpp:10-18 | the entity is taken up exactly when it is non-null and holds a `RigidBodyComponent` with a non-null body, and then that entity and body are taken |
| ObjectCarry.Toggle | client/wasm/src/game/TestScene.cpp:66-69 | without the key press nothing changes; with it, an object in hand is dropped |
| ObjectCarry.UpdateAsWritten | client/wasm/src/game/ObjectCarry.cpp:31-55 | the update as the code does it: with nothing carried it does nothing; the measured distance must be the distance between body and holder (line 41) |
| ObjectCarry.UpdateAsWrittenShape | client/wasm/src/game/ObjectCarry.cpp:40-54 | an update either drops everything or keeps entity and body with the latched distance and four times the lag as velocity. It drops exactly when the lag is at least the drop distance, whatever `canDropByItself` says. On the first update after a pickup the measured distance is latched |
| ObjectCarry.UpdateCorrected | client/wasm/src/game/ObjectCarry.cpp:31-55 | the intended update of the finding below: with nothing carried it does nothing (the corrected drop rule is stated by the lemmas below) |
| ObjectCarry.CorrectedAgreesWhenAllowed | client/wasm/src/game/ObjectCarry.cpp:47-50 | with `canDropByItself` on, the corrected update equals the update as written |
| ObjectCarry.CorrectedNeverDropsWhenForbidden | client/wasm/src/game/ObjectCarry.cpp:47-50 | with `canDropByItself` off, a carried object is never dropped; it has the latched pickup distance and is given a velocity |
| ObjectCarry.AsWrittenIgnoresFlag | client/wasm/src/game/ObjectCarry.cpp:47-50 | a concrete input where the code as written drops a book that reading has made undroppable, and the corrected update keeps it |
| ObjectCarry.UpdateCorrectedShape | client/wasm/src/game/ObjectCarry.cpp:40-54 | a corrected update either drops everything or keeps entity and body with the latched distance and four times the lag as velocity. It drops exactly when dropping is allowed and the lag is at least the drop distance. The first measured non-zero distance is latched |
| ObjectCarry.NonPositiveDropDistanceDrops | client/wasm/src/game/ObjectCarry.cpp:47 | a non-positive drop distance lets go of any carried object on its first update |
| ObjectCarry.ObjectCarry.constructor | client/wasm/src/game/ObjectCarry.cpp:5-6 | keeps the registry and drop distance; nothing is carried and dropping by itself is allowed |
| ObjectCarry.ObjectCarry.DropCarriedEntity | client/wasm/src/game/ObjectCarry.cpp:20-30 | afterwards nothing is carried and no distance is latched; the impulse is `DropImpulse` of the old body |
| ObjectCarry.ObjectCarry.SetCarriedEntity | client/wasm/src/game/ObjectCarry.cpp:8-19 | drops what was held, then carries exactly `CarryTarget` of the entity, with no latched distance |
| ObjectCarry.ObjectCarry.Update | client/wasm/src/game/ObjectCarry.cpp:31-55 | the new carry state and the velocity are those of `UpdateAsWritten`; `canDropByItself` is not read |
| Player.Jump | client/wasm/src/game/Player.cpp:91-94 | a jump happens exactly when space is held, and either the player flies or it is on the ground more than 250 ms after the last jump; a jump restarts the cooldown |
| Player.JumpCooldownHolds | client/wasm/src/game/Player.cpp:91-94 | after a jump from the ground, no second jump happens within the next 250 ms |
| Player.NoJumpInAir | client/wasm/src/game/Player.cpp:91 | off the ground and not flying, no jump happens and the timer is kept |
| Player.PlayerComponents | client/wasm/src/game/Player.cpp:18-19 | the player entity carries a `PlayerComponent` and stores its body |
| Player.Player.constructor | client/wasm/src/game/Player.cpp:7-20 | adds one new entity holding the player components and one new body of the cached (10, 20) capsule with mass 50 owned by it; afterwards the player owns that entity and the caller holds no extra handle |
| Player.Player.Move | client/wasm/src/game/Player.cpp:24-28 | takes over the other player's body and entity and nulls the other's body pointer |
| Player.Player.Cleanup | client/wasm/src/game/Player.cpp:41-45 | without a body nothing changes; otherwise the pointer is nulled and exactly its entity and body are destroyed |
| Player.Player.MoveAssign | client/wasm/src/game/Player.cpp:29-40 | self-assignment changes nothing; otherwise this player's own entity and body are destroyed and it takes over the other's, whose pointer is nulled |
| Player.Player.TryJump | client/wasm/src/game/Player.cpp:91-94 | the jump and the new last-jump time are `Jump` of the body's ground flag |
| Player.BuildPlayerEntity | client/wasm/src/game/Player.cpp:8-19 | the scene gains exactly the player entity and its capsule body, and the collider handle is released again |
| Player.AttachCapsuleBody | client/wasm/src/game/Player.cpp:12-19 | acquires the capsule, attaches one new body of it with mass 50 to the entity, and releases the handle |
| Player.ReplacePlayer | client/wasm/src/game/GameScene.cpp:55 | pressing L replaces the player: the old entity and body are gone, the new ones are in the scene, and the temporary owns nothing |
| GameActions.Actions.constructor | client/wasm/src/game/GameActions.h:5-12 | every action starts enabled |
| GameActions.Actions.Enable | client/wasm/src/game/scripts/ObjectInteractScript.cpp:106-107 | adds exactly that action to the enabled set |
| GameActions.Actions.Disable | client/wasm/src/game/scripts/ObjectInteractScript.cpp:83-84 | removes exactly that action from the enabled set |
| MainScript.UnmarkedCount | client/wasm/src/game/scripts/MainScript.cpp:17-25 | the unmarked part of a script list holds each unmarked script as often as the list does, and no marked one |
| MainScript.SwapPop | client/wasm/src/game/scripts/MainScript.cpp:19-20 | swap-with-last and pop shortens the list by one |
| MainScript.SwapPopRemoves | client/wasm/src/game/scripts/MainScript.cpp:19-20 | swap-and-pop removes exactly the script at the index, and the scripts before it stay in place |
| MainScript.SwapPopMarked | client/wasm/src/game/scripts/MainScript.cpp:18-22 | swap-and-pop of a marked script keeps every unmarked script and the prefix before the index |
| MainScript.MainScript.constructor | client/wasm/src/game/scripts/MainScript.cpp:8-14 | the four sub-scripts, in the order held object, object interaction, secret door, control hints, none of them marked |
| MainScript.MainScript.Mark | client/wasm/src/game/scripts/MainScript.cpp:18 | marks exactly one script for destruction |
| MainScript.MainScript.Update | client/wasm/src/game/scripts/MainScript.cpp:16-26 | one pass updates every unmarked script exactly once and no marked one. Afterwards no marked script remains, and the list holds exactly the old unmarked scripts, in update order |
| HeldObjectScript.Target | client/wasm/src/game/scripts/HeldObjectScript.cpp:20-37 | a target is searched for only while nothing is carried. A target is a hit flagged PICKABLE; no target means no hit was pickable |
| HeldObjectScript.TargetIsNearest | client/wasm/src/game/scripts/HeldObjectScript.cpp:26-37 | the target is a nearest pickable hit |
| HeldObjectScript.Hints | client/wasm/src/game/scripts/HeldObjectScript.cpp:41-48 | "F - pickup" shows exactly when nothing is carried and there is a target. "F - drop" and "Q - throw" show exactly when something is carried and their action is enabled |
| HeldObjectScript.PickupCarriesTarget | client/wasm/src/game/scripts/HeldObjectScript.cpp:51-54 | an empty-handed pickup carries the target together with its body, or nothing when there is no target |
| HeldObjectScript.PickupTwiceDrops | client/wasm/src/game/scripts/HeldObjectScript.cpp:51-54 | two pickups with no other change pick an object up and drop it again |
| HeldObjectScript.HeldObjectScript.constructor | client/wasm/src/game/scripts/HeldObjectScript.cpp:6-15 | the pickup flag starts lowered |
| HeldObjectScript.HeldObjectScript.OnPickUp | client/wasm/src/game/scripts/HeldObjectScript.cpp:9-11 | the PickUp listener only raises the flag |
| HeldObjectScript.HeldObjectScript.OnThrow | client/wasm/src/game/scripts/HeldObjectScript.cpp:12-14 | the Throw listener drops the carried object and applies the drop impulse along the camera front with force 10 |
| HeldObjectScript.HeldObjectScript.Update | client/wasm/src/game/scripts/HeldObjectScript.cpp:17-57 | the hints are `Hints`. The flag is consumed once, through `Toggle` on the target. The carry then moves as `UpdateAsWritten` says, so a book being read can still be dropped |
| ObjectInteractScript.WithHidden | client/wasm/src/game/scripts/ObjectInteractScript.cpp:46-48 | only the mesh's hidden flag changes, and only when there is a mesh |
| ObjectInteractScript.HideShowRestores | client/wasm/src/game/scripts/ObjectInteractScript.cpp:94-96 | hiding then showing a book that was visible restores its components exactly |
| ObjectInteractScript.UntaggedNotReadable | client/wasm/src/game/scripts/ObjectInteractScript.cpp:22-28 | an entity without a tag, or not flagged INTERACTABLE, is never read |
| ObjectInteractScript.ReadableIsLiveHintBook | client/wasm/src/game/scripts/ObjectInteractScript.cpp:22-28 | an entity is readable exactly when it is alive, flagged INTERACTABLE and tagged "hintBook" |
| ObjectInteractScript.ObjectInteractScript.constructor | client/wasm/src/game/scripts/ObjectInteractScript.cpp:8-10 | the script starts out not reading |
| ObjectInteractScript.ObjectInteractScript.BeginReading | client/wasm/src/game/scripts/ObjectInteractScript.cpp:42-49 | reading is on, the book is remembered and its mesh hidden; nothing else in the registry changes |
| ObjectInteractScript.ObjectInteractScript.CreateFakeBook | client/wasm/src/game/scripts/ObjectInteractScript.cpp:56-84 | one new fake-book entity without a body is added; PickUp and Throw are disabled; self-dropping is switched off |
| ObjectInteractScript.ObjectInteractScript.StartReading | client/wasm/src/game/scripts/ObjectInteractScript.cpp:41-85 | the book is hidden. A null body stops there, changing nothing else. Otherwise the body stops colliding and falling, the fake book is added, PickUp and Throw are disabled, and self-dropping is off |
| ObjectInteractScript.ObjectInteractScript.DestroyFakeBook | client/wasm/src/game/scripts/ObjectInteractScript.cpp:88-90 | the fake book is destroyed exactly when it is alive |
| ObjectInteractScript.ObjectInteractScript.ShowBook | client/wasm/src/game/scripts/ObjectInteractScript.cpp:93-98 | the real book, if alive, is shown again, and its body pointer is returned |
| ObjectInteractScript.ObjectInteractScript.StopReading | client/wasm/src/game/scripts/ObjectInteractScript.cpp:86-108 | the fake book goes and the real book is shown again. A null body stops there, with reading still on and the actions still off. Otherwise reading ends, everything is forgotten, and PickUp, Throw and self-dropping are re-enabled |
| ObjectInteractScript.ObjectInteractScript.EndReading | client/wasm/src/game/scripts/ObjectInteractScript.cpp:103-107 | reading data is cleared, and PickUp, Throw and self-dropping are back on |
| ObjectInteractScript.ObjectInteractScript.OnInteract | client/wasm/src/game/scripts/ObjectInteractScript.cpp:10-31 | reading starts exactly when not reading and the held entity is a readable hint book, and then the held entity is the real book; in any other not-reading case nothing changes |
| SecretDoorScript.Classify | client/wasm/src/game/scripts/SecretDoorScript.cpp:68-100 | "goldenBook", "codeEnter" and "code1" to "code3" are told apart exactly by their tags; a code button carries its digit 1 to 3 |
| SecretDoorScript.Press | client/wasm/src/game/scripts/SecretDoorScript.cpp:68-100 | a code is submitted exactly when the enter button is pressed at least a second after the last check; then the entered code is sent and cleared, and the check time is reset. A code button appends its digit. The golden book and any other tag change nothing. A throttled enter changes nothing |
| SecretDoorScript.PressKeepsDigits | client/wasm/src/game/scripts/SecretDoorScript.cpp:92-100 | the entered code, and so every submitted code, holds only the digits 1 to 3 |
| SecretDoorScript.Aimed | client/wasm/src/game/scripts/SecretDoorScript.cpp:50-66 | the aimed tag is that of a hit that is tagged and INTERACTABLE; none means no hit qualified |
| SecretDoorScript.Interaction | client/wasm/src/game/scripts/SecretDoorScript.cpp:44-101 | nothing happens while an object is carried or nothing qualifies; otherwise the aimed button is pressed |
| SecretDoorScript.Buttons | client/wasm/src/game/scripts/SecretDoorScript.cpp:92-100 | the button sequence for a code has one digit button per character |
| SecretDoorScript.PressButtonsAppends | client/wasm/src/game/scripts/SecretDoorScript.cpp:92-100 | pressing a code's buttons appends exactly that code and submits nothing |
| SecretDoorScript.SubmissionsThrottled | client/wasm/src/game/scripts/SecretDoorScript.cpp:74-76 | a second enter press within a second of a submission submits nothing and keeps what was entered since |
| SecretDoorScript.OtherPressesKeepCheck | client/wasm/src/game/scripts/SecretDoorScript.cpp:92-100 | presses of other buttons never change the last check time and never submit |
| SecretDoorScript.DoorCodeOpens | client/wasm/src/game/scripts/SecretDoorScript.cpp:73-100 | end to end: typing the server's door code for a task version and pressing enter a second after the last check submits a code the server accepts |
| SecretDoorScript.CodeButtonIsDigit | client/wasm/src/game/scripts/SecretDoorScript.cpp:92-100 | the button tagged "code" plus a digit 1 to 3 is that digit |
| SecretDoorScript.DoorEntities | client/wasm/src/game/scripts/SecretDoorScript.cpp:79-83 | the entities a success destroys are exactly those tagged "secretDoor" or "codeEnter" |
| SecretDoorScript.OpeningSparesOthers | client/wasm/src/game/scripts/SecretDoorScript.cpp:79-83 | after opening no door or enter button is left, and every other entity is unchanged |
| SecretDoorScript.HintBooks | client/wasm/src/game/scripts/SecretDoorScript.cpp:110-114 | the hint books of a view are exactly the entities of the view tagged "hintBook" |
| SecretDoorScript.AssignHints | client/wasm/src/game/scripts/SecretDoorScript.cpp:115-123 | the hint callback adds and removes no entity |
| SecretDoorScript.HintBooksIgnoreHints | client/wasm/src/game/scripts/SecretDoorScript.cpp:115-123 | which entities are hint books does not depend on their hints |
| SecretDoorScript.AssignHintsOnlyHints | client/wasm/src/game/scripts/SecretDoorScript.cpp:120 | the hint callback changes nothing but book hints |
| SecretDoorScript.AssignHintsGives | client/wasm/src/game/scripts/SecretDoorScript.cpp:115-123 | the k-th hint book of the view gets the k-th hint, for every k below both counts |
| SecretDoorScript.AssignHintsSpares | client/wasm/src/game/scripts/SecretDoorScript.cpp:118-119 | every entity that is not among the first hint books, one per hint, stays as it was |
| SecretDoorScript.SecretDoorScript.constructor | client/wasm/src/game/scripts/SecretDoorScript.cpp:32-43 | empty code, global check time reset to now, hints still to be requested, not won, and the clock starts now |
| SecretDoorScript.SecretDoorScript.Interact | client/wasm/src/game/scripts/SecretDoorScript.cpp:44-101 | the keypad and the submitted code are `Interaction` of the old keypad |
| SecretDoorScript.SecretDoorScript.OnCheckDoorCodeResponse | client/wasm/src/game/scripts/SecretDoorScript.cpp:77-84 | a success destroys exactly the door entities and their bodies; a failure changes nothing |
| SecretDoorScript.SecretDoorScript.CountHintBooks | client/wasm/src/game/scripts/SecretDoorScript.cpp:109-114 | the count is the number of hint books of the view |
| SecretDoorScript.SecretDoorScript.Update | client/wasm/src/game/scripts/SecretDoorScript.cpp:104-181 | only the first update requests hints, asking for the number of hint books. The hint is `AimHint`. The end time follows the clock until the game is won |
| SecretDoorScript.SecretDoorScript.SetBookHints | client/wasm/src/game/scripts/SecretDoorScript.cpp:115-123 | the registry becomes `AssignHints` of the view and the hints |
| SecretDoorScript.SecretDoorScript.Win | client/wasm/src/game/scripts/SecretDoorScript.cpp:182-188 | the first call reports the whole seconds played; later calls report nothing |
| SecretDoorScript.AimHint | client/wasm/src/game/scripts/SecretDoorScript.cpp:142-168 | no hint while carrying; otherwise the keypad hint of the aimed tag |
| SecretDoorScript.KeypadHint | client/wasm/src/game/scripts/SecretDoorScript.cpp:160-166 | a hint exactly for code and enter buttons: "E - enter d" for a digit, "E - enter code" for enter |
| GameScene.GcStep | client/wasm/src/game/GameScene.cpp:43-48 | the throttle collects exactly when it has a timestamp and more than the window has passed; its timestamp becomes now on a collection and on the first call, and otherwise stays |
| GameScene.GcRunsSpaced | client/wasm/src/game/GameScene.cpp:43-48 | on a clock that does not run backwards, every collection is at one of the frames, and consecutive collections are more than the window apart |
| GameScene.FirstFrameKeepsCache | client/wasm/src/game/GameScene.cpp:43-48 | the first frame only initialises the timestamp and never collects |
| GameScene.GameFrameSteps | client/wasm/src/game/GameScene.cpp:41-78 | a frame collects, rebuilds the player and spawns exactly when asked, and always moves the player |
| GameScene.PausedFrameStopsAtMovement | client/wasm/src/game/GameScene.cpp:76-81 | a paused frame ends with player movement; no key mapping, physics, camera or scripts |
| GameScene.PlayingFrameOrder | client/wasm/src/game/GameScene.cpp:83-100 | a playing frame ends with movement, key mapping, the physics step, the camera sync and the scripts, in that order; only collection, rebuild and spawn come before |
| GameScene.SpawnCandlesAndGlobes | client/wasm/src/game/GameScene.cpp:61-74 | T adds exactly 50 entities, each with its own body of the shared unit box of mass 100 and a "candle" or "globe" mesh by index parity; nothing else changes and the handle is released |
| GameScene.AcquireStressBox | client/wasm/src/game/GameScene.cpp:62 | acquires the cached unit box; the caller gains one handle |
| GameScene.SpawnKeepsOld | client/wasm/src/game/GameScene.cpp:67-73 | entities alive before a spawn keep their components |
| GameScene.GameScene.constructor | client/wasm/src/game/GameScene.cpp:11-35 | builds a player that owns its entity and the four-script main script, with no collection timestamp yet |
| GameScene.GameScene.CollectIfDue | client/wasm/src/game/GameScene.cpp:43-48 | the collection runs exactly when `GcStep` says and then prunes the box, sphere and capsule tables to the live shapes; otherwise all three tables are unchanged. The live shapes never change |
| GameScene.GameScene.Spawn | client/wasm/src/game/GameScene.cpp:61-74 | the stress spawn adds 50 entities and keeps the player valid |
| GameScene.GameScene.SwitchMode | client/wasm/src/game/GameScene.cpp:52-58 | after L, playing is what `Play` leaves, and the player is valid |
| GameScene.GameScene.MovePlayer | client/wasm/src/game/GameScene.cpp:77-78 | the player flies exactly when the scene is not playing |
| GameScene.GameScene.Open | client/wasm/src/game/GameScene.cpp:41-74 | the steps before movement are `Opening` of the throttle, L and T; playing changes only on L |
| GameScene.GameScene.Update | client/wasm/src/game/GameScene.cpp:41-101 | a frame takes exactly the `GameFrame` steps. The player flies exactly when not playing. A paused frame leaves the scripts as they were; a playing frame removes the marked ones |
| GameScene.GameScene.OwnedBodyLive | client/wasm/src/game/GameScene.cpp:93-94 | the player's body is in the world |
| TestScene.PickTarget | client/wasm/src/game/TestScene.cpp:51-59 | the pick target is a hit whose body has non-zero mass; none means every hit body is static |
| TestScene.PickedBodyMoves | client/wasm/src/game/TestScene.cpp:51-59 | the picked entity's own body has non-zero mass |
| TestScene.LiveHits | client/wasm/src/game/TestScene.cpp:51-54 | the reported hits are exactly those whose entity is alive and stores the hit body |
| TestScene.Handle | client/wasm/src/game/TestScene.cpp:66-72 | a right click leaves nothing held; otherwise the F key toggles as `Toggle` |
| TestScene.FTogglesCarrying | client/wasm/src/game/TestScene.cpp:66-69 | F over a target with a body picks it up, and F again drops it |
| TestScene.GroundCheckFollowsStep | client/wasm/src/game/TestScene.cpp:73-81 | while playing, the ground check comes right after the physics step, after the carry and before the camera |
| TestScene.PausedFrameIgnoresT | client/wasm/src/game/TestScene.cpp:45-46 | a paused frame neither spawns nor steps physics, and ends with movement |
| TestScene.SpawnPencils | client/wasm/src/game/TestScene.cpp:84-94 | T adds exactly 100 entities, each with its own body of mass 1 of the shared (0.5, 1.0) capsule and the pencil mesh; nothing else changes and the handle is released |
| TestScene.AcquirePencilShape | client/wasm/src/game/TestScene.cpp:86 | acquires the cached (0.5, 1.0) capsule; the caller gains one handle |
| TestScene.TestScene.constructor | client/wasm/src/game/TestScene.cpp:11-20 | builds a player owning its entity; the scene is not playing and has no collection timestamp |
| TestScene.TestScene.CollectIfDue | client/wasm/src/game/TestScene.cpp:24-29 | collects when more than a second has passed and then prunes the box, sphere and capsule tables to the live shapes; otherwise all three tables are unchanged. The live shapes never change |
| TestScene.TestScene.SwitchMode | client/wasm/src/game/TestScene.cpp:33-39 | after L, playing is what `Play` leaves, and the player is valid |
| TestScene.TestScene.MovePlayer | client/wasm/src/game/TestScene.cpp:42-43 | the player flies exactly when the scene is not playing |
| TestScene.TestScene.PickOrDrop | client/wasm/src/game/TestScene.cpp:66-72 | the carry becomes `Handle`; a right click applies the drop impulse of force 10 |
| TestScene.TestScene.HandleCarry | client/wasm/src/game/TestScene.cpp:49-73 | picking on the ray cast, then the carry update as `UpdateAsWritten`; after a right click nothing is held and there is no velocity |
| TestScene.TestScene.CheckGround | client/wasm/src/game/TestScene.cpp:78 | each body's on-ground flag becomes what Bullet reports |
| TestScene.TestScene.Open | client/wasm/src/game/TestScene.cpp:22-39 | the steps before movement are `Prefix` of the throttle and L |
| TestScene.TestScene.Play | client/wasm/src/game/TestScene.cpp:48-94 | a playing frame takes the `Played` steps; after a right click nothing is held |
| TestScene.TestScene.Update | client/wasm/src/game/TestScene.cpp:22-95 | a frame takes exactly the `TestFrame` steps. The player flies exactly when not playing. A paused frame leaves the carry alone. After a right click nothing is held |
| TestScene.TestScene.Spawn | client/wasm/src/game/TestScene.cpp:84-94 | the pencil spawn adds 100 entities and keeps the player valid |
| Text.JoinSplit | client/wasm/debug_api.py:14-24 | joining the pieces of a split gives the original path back |
| Text.SplitJoin | client/wasm/debug_api.py:14-24 | splitting a join gives back the pieces, when none of them contains the separator |
| DebugApi.ShaderRequestRewritten | client/wasm/debug_api.py:15-19 | a request under "/rendering/shaders/" is served from the shader directory with the rest of its path kept |
| DebugApi.SceneRequestRewritten | client/wasm/debug_api.py:20-23 | a request under "/scenes/" is served from the scenes directory with the rest of its path kept |
| DebugApi.OtherRequestUnchanged | client/wasm/debug_api.py:13-24 | any other path is served unchanged |
| DebugApi.SaveSceneFile | client/wasm/debug_api.py:53-60 | a POST to "/SaveScene/name..." writes "src/scenes/name.h"; later pieces are ignored |
| DebugApi.UnknownSceneFile | client/wasm/debug_api.py:56-60 | any other POST path writes "src/scenes/Unknown.h" |
| Task3HintGenerator.LoremSplits | server/server/src/Task3/Task3HintGenerator.cs:4-5 | splitting the lorem text on spaces gives the modelled word list |
| Task3HintGenerator.DoorCodesWellFormed | server/server/src/Task3/Task3HintGenerator.cs:32 | every door code is three or four digits from 1 to 3 |
| Task3HintGenerator.Abs | server/server/src/Task3/Task3HintGenerator.cs:34 | `Math.Abs` succeeds exactly for every `int` except `int.MinValue`, and then gives the absolute value |
| Task3HintGenerator.GetDoorCode | server/server/src/Task3/Task3HintGenerator.cs:31-35 | throws exactly for `int.MinValue`; otherwise the code is one of the ten codes |
| Task3HintGenerator.DoorCodeSymmetric | server/server/src/Task3/Task3HintGenerator.cs:34 | a version and its negation select the same code |
| Task3HintGenerator.DoorCodePeriodic | server/server/src/Task3/Task3HintGenerator.cs:34 | versions ten apart select the same code |
| Task3HintGenerator.GenerateTaskVersion | server/server/src/Task3/Task3HintGenerator.cs:36-38 | a drawn version lies in [0, 1000) and has a door code |
| Task3HintGenerator.CodeWord | server/server/src/Task3/Task3HintGenerator.cs:12 | the pair for position i is the ordinal word of i and the word of the digit at i |
| Task3HintGenerator.InsertAt | server/server/src/Task3/Task3HintGenerator.cs:21-22 | `List.Insert(i, x)` puts x at i and shifts the rest right by one |
| Task3HintGenerator.OrdinalPos | server/server/src/Task3/Task3HintGenerator.cs:21 | the ordinal goes into the first half of the words |
| Task3HintGenerator.DigitPos | server/server/src/Task3/Task3HintGenerator.cs:22 | the digit word goes at or after the middle, at most at the end |
| Task3HintGenerator.CodeWords | server/server/src/Task3/Task3HintGenerator.cs:9-13 | the first loop yields one `CodeWord` pair per code position |
| Task3HintGenerator.GetHints | server/server/src/Task3/Task3HintGenerator.cs:3-30 | the loops compute exactly `Hints`, including its throwing cases |
| Task3HintGenerator.HintsCount | server/server/src/Task3/Task3HintGenerator.cs:8-17 | there are exactly `Count` hints when the version is not `int.MinValue` and the count is non-negative; otherwise it throws |
| Task3HintGenerator.HintsPastCodeAreLorem | server/server/src/Task3/Task3HintGenerator.cs:24-26 | a hint at or past the code's length is the unmodified lorem text |
| Task3HintGenerator.InsertTwiceShape | server/server/src/Task3/Task3HintGenerator.cs:21-22 | after two insertions the first word sits at p and the second at q, and the original words keep their order around them |
| Task3HintGenerator.HintWordsShape | server/server/src/Task3/Task3HintGenerator.cs:19-23 | hint i is the lorem words with the ordinal of i in the first half and the digit word of code[i] after it, and every lorem word keeps its order |
| Task3HintGenerator.HintTextSplits | server/server/src/Task3/Task3HintGenerator.cs:23 | splitting hint i on spaces gives back its word list |
| Task3.CheckCode | server/server/src/Task3/Task3.cs:38-41 | the guess is right exactly when it equals the version's door code; it throws exactly for `int.MinValue` |
| Task3.DataResponse | server/server/src/Task3/Task3.cs:32-58 | a door-code request is answered with a door-code response, and a hint request with a hint response |
| Task3.GetResponse | server/server/src/Task3/Task3.cs:12-22 | the response keeps the task version; without data it is the version with no data |
| Task3.DefaultCodeNeverCorrect | server/server/src/Task3/Task3.cs:28-30 | the default empty code is never accepted |
| Task3.VersionOneCode | server/server/src/Task3/Task3HintGenerator.cs:32-34 | version 1's code is "1221": "1221" is accepted and "123" is rejected |
| Task3.DoorCodeResponseIsCheck | server/server/src/Task3/Task3.cs:32-41 | a door-code request is answered with the check of its code against the version's door |
| Task3.BookHintResponseCount | server/server/src/Task3/Task3.cs:49-58 | a hint request with a non-negative count is answered with exactly the generator's `count` hints |
| ConnectionStringBuilder.Build | server/server/ConnectionStringBuilder.cs:24-33 | throws "One or more database connection parameters are missing!" exactly when one of the five values is unset or empty |
| ConnectionStringBuilder.BuildRoundTrip | server/server/ConnectionStringBuilder.cs:33 | when no value contains ';', splitting the connection string at ';' gives exactly its fields in order, with each value verbatim |
| ConnectionStringBuilder.BuildInjective | server/server/ConnectionStringBuilder.cs:33 | two successful builds are equal only when all five values are equal |
| ConnectionStringBuilder.LogLines | server/server/ConnectionStringBuilder.cs:11-22 | there are six console lines, the banner first; the password's line says only "SET" or "NOT SET" |
| ConnectionStringBuilder.PasswordNeverLogged | server/server/ConnectionStringBuilder.cs:22 | the console lines are the same whatever the password is, as long as it is set |
| ExceptionMiddleware.StatusFor | server/server/src/Exceptions/ExceptionMiddleware.cs:37-50 | 404 exactly for `NotFoundException`, 401 exactly for `UnauthorizedException`, 500 exactly for every other exception |
| ExceptionMiddleware.Hex4RoundTrip | server/server/src/Exceptions/ExceptionMiddleware.cs:53 | the four hex digits of a `\u` escape read back as the code unit |
| ExceptionMiddleware.UnescapeOne | server/server/src/Exceptions/ExceptionMiddleware.cs:53 | each escaped character reads back as itself, whatever follows it |
| ExceptionMiddleware.EscapeRoundTrip | server/server/src/Exceptions/ExceptionMiddleware.cs:53 | the error message survives the JSON writer: reading the escaped message gives it back |
| ExceptionMiddleware.Response.constructor | server/server/src/Exceptions/ExceptionMiddleware.cs:21 | a response starts as 200 with no content type and an empty body |
| ExceptionMiddleware.ExceptionMiddleware.constructor | server/server/src/Exceptions/ExceptionMiddleware.cs:15-19 | nothing is logged yet |
| ExceptionMiddleware.ExceptionMiddleware.InvokeAsync | server/server/src/Exceptions/ExceptionMiddleware.cs:21-32 | nothing changes when the handler did not throw; otherwise the exception is logged once, and the response gets the JSON content type, its status and the `{"error": message}` body |
| ExceptionMiddleware.ExceptionMiddleware.HandleException | server/server/src/Exceptions/ExceptionMiddleware.cs:34-55 | sets the JSON content type and the status by type, and appends the error body |
| Database.Database.constructor | server/server/src/FlashDbContext.cs:1-135 | a new database has every table empty |
| Database.HistoryOf | server/server/src/User/UserHandler.cs:205-220 | an unknown user has no history. Otherwise every stored history whose id the user lists is included, and only such histories |
| Database.HistoryOfExactly | server/server/src/User/UserHandler.cs:215-217 | with rows stored under their ids, a history belongs to a user exactly when it is stored and the user lists its id |
| HistoryManager.NewHistory | server/server/src/Services/HistoryManager.cs:13-21 | the new row carries the given id, session, task, score and time; missing selected variants become no answers |
| HistoryManager.HistoryManager.constructor | server/server/src/Services/HistoryManager.cs:5 | the manager works on the given database |
| HistoryManager.HistoryManager.SaveTaskResult | server/server/src/Services/HistoryManager.cs:7-26 | an unknown email changes nothing. Otherwise exactly one row is added, and its id is appended to the user's `HistoryIds` |
| HistoryManager.SaveExtendsHistory | server/server/src/Services/HistoryManager.cs:22-23 | after a save, the user's history is the old one plus the new row; other users' histories stay |
| UserHandler.NewSettings | server/server/src/User/UserHandler.cs:164-175 | the new settings row takes the first stored theme and font, or "default_theme" and "default_font" |
| UserHandler.Registered | server/server/src/User/UserHandler.cs:40-44 | the stored user has the hashed password, no picture, no histories and the new rows' ids |
| UserHandler.ProfilePicOf | server/server/src/User/UserHandler.cs:290-298 | null exactly for an unknown user; an empty array for a user without a picture |
| UserHandler.UserNotFoundIsServerError | server/server/src/User/UserHandler.cs:236 | "User not found" is a plain `Exception`, so the middleware answers 500 and not 404 |
| UserHandler.UserHandler.constructor | server/server/src/User/UserHandler.cs:18-24 | the handler works on the given database |
| UserHandler.UserHandler.RegisterUser | server/server/src/User/UserHandler.cs:26-56 | a taken email throws first, then a taken name throws, and neither changes anything. Otherwise the settings and sessions rows are saved, then the user; a failing final save returns false and keeps the two rows |
| UserHandler.UserHandler.CreateSettings | server/server/src/User/UserHandler.cs:164-175 | adds exactly one settings row, `NewSettings` |
| UserHandler.UserHandler.CreateSessions | server/server/src/User/UserHandler.cs:177-184 | adds exactly one empty sessions container |
| UserHandler.UserHandler.ChangeUserPassword | server/server/src/User/UserHandler.cs:232-241 | a missing user throws "User not found"; otherwise only that user's password hash changes |
| UserHandler.UserHandler.ChangeUserName | server/server/src/User/UserHandler.cs:243-252 | a missing user throws "User not found"; otherwise only that user's name changes, without a uniqueness check |
| UserHandler.UserHandler.UpdateProfilePicture | server/server/src/User/UserHandler.cs:117-128 | an unknown user gives null and no change; otherwise the picture is replaced and the updated user returned |
| UserHandler.UserHandler.DeleteUserByEmail | server/server/src/User/UserHandler.cs:254-288 | a missing user throws and nothing changes. Otherwise the user goes, along with their sessions container and every single session it lists, their settings row and every history they list |
| UserHandler.UserHandler.RemoveSessionsOf | server/server/src/User/UserHandler.cs:260-272 | removes the container and every single session it lists, when the container exists |
| UserHandler.UserHandler.RemoveSettings | server/server/src/User/UserHandler.cs:273-277 | removes the settings row |
| UserHandler.UserHandler.RemoveSingleSessions | server/server/src/User/UserHandler.cs:263-270 | removes exactly the listed single sessions that exist |
| UserHandler.UserHandler.RemoveHistories | server/server/src/User/UserHandler.cs:278-285 | removes exactly the listed histories that exist |
| UserHandler.RegisteredHistoryEmpty | server/server/src/User/UserHandler.cs:205-220 | a new user's history is empty, and after deletion the lookup finds nothing |
| UserHandler.DeleteSparesOthers | server/server/src/User/UserHandler.cs:278-286 | deleting a user leaves alone the history of another user who shares no history id |
| Leaderboards.UserRows | server/server/src/User/UserHandler.cs:305-309 | each joined record of one user carries the user's name and the task and score of a stored history whose id the user lists |
| Leaderboards.Joined | server/server/src/User/UserHandler.cs:304-310 | every joined record belongs to a name of some user |
| Leaderboards.Distinct | server/server/src/User/UserHandler.cs:313 | the group keys are exactly the values that occur, each once |
| Leaderboards.TotalEntries | server/server/src/User/UserHandler.cs:313-317 | one entry per given name, in order, with the sum of that name's scores |
| Leaderboards.TotalsKeyed | server/server/src/User/UserHandler.cs:313-317 | every entry carries its name's total, and no name has two entries |
| Leaderboards.TotalsCover | server/server/src/User/UserHandler.cs:313-317 | every name with a record has an entry with its total |
| Leaderboards.TotalsFromRecords | server/server/src/User/UserHandler.cs:313-317 | only names with a record have an entry |
| Leaderboards.MaxOf | server/server/src/User/UserHandler.cs:346 | the group maximum is the score of one of its records and at least every other |
| Leaderboards.SlotsOccupied | server/server/src/User/UserHandler.cs:342-346 | every (name, task) key has a record, so `Max` never sees an empty group |
| Leaderboards.HighEntries | server/server/src/User/UserHandler.cs:342-347 | one entry per given key, in order, with the group's best score and the task as game mode |
| Leaderboards.HighsKeyed | server/server/src/User/UserHandler.cs:342-347 | every entry is the best score of its group, and no group has two entries |
| Leaderboards.HighsCover | server/server/src/User/UserHandler.cs:342-347 | every record's group has an entry with its best score |
| Leaderboards.Ranked | server/server/src/User/UserHandler.cs:318 | ordering by score descending permutes the entries and puts the best first |
| Leaderboards.TotalRankingSorted | server/server/src/User/UserHandler.cs:313-318 | the total ranking is a permutation of the totals, best first |
| Leaderboards.TotalRankingSums | server/server/src/User/UserHandler.cs:304-318 | each ranked entry is its name's summed score, with users sharing a name sharing an entry, and every name with a record is ranked |
| Leaderboards.HighRankingSorted | server/server/src/User/UserHandler.cs:342-348 | the high-score ranking is a permutation of the group maxima, best first |
| Leaderboards.HighRankingMaxima | server/server/src/User/UserHandler.cs:333-348 | each ranked entry is the best score of its (name, task) group, and every record's group is ranked |
| Leaderboards.PageOfRanking | server/server/src/User/UserHandler.cs:319-320 | `Skip(skip).Take(take)` gives at most `take` consecutive entries starting at `skip`, a full page when there are enough, and none past the end |
| Leaderboards.TwoGamesJoin | server/server.Tests/ControllerTests/UserControllerTests.cs:671-678 | a player's two histories of 100 and 200 join as two records |
| Leaderboards.TwoGamesTotal | server/server.Tests/ControllerTests/UserControllerTests.cs:683-689 | those records rank as one total of 300 |
| Leaderboards.TwoGamesHighs | server/server/src/User/UserHandler.cs:342-348 | on two different tasks they rank as two high scores, 200 first |
| Leaderboards.TwoHighs | server/server/src/User/UserHandler.cs:342-347 | those two records on tasks 1 and 2 form two groups whose maxima are 100 and 200 |
| SessionManager.Live | server/server/src/Services/SessionManager.cs:73-80 | the sessions a health check keeps are exactly those not idle for more than two minutes, unchanged |
| SessionManager.Record | server/server/src/Services/SessionManager.cs:45-50 | a persisted row starts at the session's start and ends at its last ping |
| SessionManager.Expired | server/server/src/Services/SessionManager.cs:35-44 | a row is written exactly for the idle sessions whose user and sessions container exist |
| SessionManager.HealthCheckKeepsActive | server/server/src/Services/SessionManager.cs:75 | a session is kept exactly when its last ping is no more than two minutes old, and a kept one is unchanged |
| SessionManager.PingedSurvives | server/server/src/Services/SessionManager.cs:75 | a session pinged at `now` survives every health check up to two minutes later |
| SessionManager.SweepSwept | server/server/src/Services/SessionManager.cs:72-81 | visiting each email once removes exactly the idle visited sessions and persists each expired one. Old rows stay, containers only grow, and no other row appears |
| SessionManager.HealthCheckSpec | server/server/src/Services/SessionManager.cs:72-81 | after a full health check the sessions are the live ones. Each expired session has its row, and its container lists the row. Old rows and container entries stay, and no other row appears |
| SessionManager.AllSeenLive | server/server/src/Services/SessionManager.cs:73-80 | once every email has been visited, the sessions left are the live ones |
| SessionManager.SessionManager.constructor | server/server/src/Services/SessionManager.cs:9-13 | a new manager has no sessions |
| SessionManager.SessionManager.CreateSessionsTable | server/server/src/Services/SessionManager.cs:14-32 | an unknown email changes nothing. Otherwise a new empty container is stored and the user points at it |
| SessionManager.SessionManager.SaveUserSession | server/server/src/Services/SessionManager.cs:33-56 | a missing user or container changes nothing. Otherwise exactly one row is added and its id is appended to the container |
| SessionManager.SessionManager.AddSessionToDictionary | server/server/src/Services/SessionManager.cs:57-71 | only an existing user without a session gets one, started and alive now. An existing session is never replaced |
| SessionManager.SessionManager.UpdateSession | server/server/src/Services/SessionManager.cs:82-92 | an existing session only has its last ping moved to now. Otherwise this behaves as `AddSessionToDictionary` |
| SessionManager.SessionManager.HealthCheck | server/server/src/Services/SessionManager.cs:72-81 | the new tables are those of the sweep over the connected emails, whose effect `HealthCheckSpec` states |
| SessionManager.SessionManager.ExpireOne | server/server/src/Services/SessionManager.cs:75-79 | one visit: an idle session is persisted when it can be, and removed either way |
| SessionManager.SessionManager.GetConnectedUsers | server/server/src/Services/SessionManager.cs:93-100 | every connected email is listed, each once, and nothing else |
| SessionManager.SessionManager.GetConnectedUsernames | server/server/src/Services/SessionManager.cs:102-113 | the name of every connected email that has a user is listed, at most one per session, and nothing else |
| ChatController.ChatAfterTotal | server/server/src/Controller/ChatController.cs:27 | ordering by chat index descending is a total preorder |
| ChatController.Descending | server/server/src/Controller/ChatController.cs:27 | the sorted listing is a permutation of the stored chats, highest index first |
| ChatController.NewestIsPrefix | server/server/src/Controller/ChatController.cs:27 | `Take(100)` keeps the first min(100, n) chats of the sorted listing |
| ChatController.NewestWindow | server/server/src/Controller/ChatController.cs:26-27 | the window holds min(100, n) stored chats, highest index first |
| ChatController.NewestAreNewest | server/server/src/Controller/ChatController.cs:27 | no chat left out of the window has a higher index than a chat in it |
| ChatController.NewestFirst | server/server/src/Controller/ChatController.cs:27 | the first chat shown has the highest index of all |
| ChatController.HundredFiftyChats | server/server.Tests/ControllerTests/ChatControllerTests.cs:65-87 | with chats 1 to 150 stored, 100 are shown and chat 150 comes first |
| ChatController.WithPicture | server/server/src/Controller/ChatController.cs:33-37 | a chat keeps its text, author and time. It carries the author's stored picture, or an empty one when the author is unknown or has none |
| ChatController.NextIndex | server/server/src/Controller/ChatController.cs:54-55 | a new chat's index is 1 in an empty table, otherwise one more than the highest stored index, so it is above every stored index |
| ChatController.MaxKey | server/server/src/Controller/ChatController.cs:54 | `OrderByDescending(...).FirstOrDefault` picks a stored index that is at least every other |
| ChatController.SentChatShownFirst | server/server/src/Controller/ChatController.cs:24-66 | after a chat is sent, reading the chats shows it first |
| ChatController.ChatController.constructor | server/server/src/Controller/ChatController.cs:20-23 | the controller reads and writes the given database |
| ChatController.ChatController.GetGlobalChats | server/server/src/Controller/ChatController.cs:24-40 | the reply is `Ok` with one chat per chat in the newest window, in the same order, each with its author's picture |
| ChatController.ChatController.SendGlobalChat | server/server/src/Controller/ChatController.cs:41-66 | a missing or empty email claim gets 401 "Invalid token." and stores nothing. Otherwise exactly one chat is added under the next index, with the sender as author and the text and time given |
| UserController.GetAllUsers | server/server/src/Controller/UserController.cs:17-27 | every user is listed, in order, with only name and email |
| UserController.GetUser | server/server/src/Controller/UserController.cs:28-42 | the reply is 401 "Invalid token." exactly when the claim is missing or empty, 404 "User not found." for an unknown email, otherwise `Ok` with that user's name and email |
| UserController.GetUserDetails | server/server/src/Controller/UserController.cs:43-50 | the reply is `Ok` with email, name and join time exactly when the user exists, otherwise 404 |
| UserController.GetProfilePicture | server/server/src/Controller/UserController.cs:51-72 | after the token and user checks, the reply is the stored picture as "profile.jpg", or the default picture as "defaultPicture.jpg" when none or an empty one is stored; both are "image/jpeg" |
| UserController.UpdateProfilePicture | server/server/src/Controller/UserController.cs:73-99 | the token check comes first, then the user check, then the null-or-empty file check. The handler is called, and the reply is `Ok`, exactly when all three pass |
| UserController.GetUserHistory | server/server/src/Controller/UserController.cs:100-113 | after the token and user checks, the reply is `Ok` with exactly the user's stored histories |
| UserController.ChangeUserPassword | server/server/src/Controller/UserController.cs:114-133 | the checks run in order: token, user, old password (empty or failing BCrypt gives 401 "Invalid password."), then new password (empty gives 400). The password changes exactly when all four pass |
| UserController.WrongPasswordWins | server/server/src/Controller/UserController.cs:125-130 | a wrong or empty old password is refused with 401 whatever the new password is |
| UserController.ChangeUserName | server/server/src/Controller/UserController.cs:134-146 | the token check comes first, then the empty-name check, both before any lookup. Exactly a request passing both renames |
| UserController.DeleteUser | server/server/src/Controller/UserController.cs:147-156 | a missing claim is refused; any other request deletes that user and replies "User deleted." |
| UserController.Wrap32 | server/server/src/Controller/UserController.cs:163 | C#'s unchecked 32-bit int arithmetic: the value in range congruent to the exact one, equal to it when it fits |
| UserController.SkipAsWritten | server/server/src/Controller/UserController.cs:163 | the skip as written is the 32-bit wrap-around of `(page - 1) * 10` |
| UserController.RankingPageAsWritten | server/server/src/Controller/UserController.cs:157-182 | as written, a page below 1 gets 400 "Invalid page number." and any other page gets `Ok` |
| UserController.OverflowedPageRepeatsFirst | server/server/src/Controller/UserController.cs:163 | page 214748366 wraps its skip to -2147483646, which skips nothing, so it returns page 1 again |
| UserController.RankingPage | server/server/src/Controller/UserController.cs:157-182 | with the skip computed exactly, a page below 1 gets 400 "Invalid page number." and any other page gets `Ok` |
| UserController.RankingPageSlice | server/server/src/Controller/UserController.cs:162-165 | page `p` holds at most ten consecutive ranking entries from `(p - 1) * 10` on, ten when the ranking reaches that far and none past its end |
| UserController.OverflowedPageCorrected | server/server/src/Controller/UserController.cs:163 | computed exactly, page 214748366 of any ranking the server can hold is empty, which differs from the as-written reply on every non-empty ranking |
| UserController.AsWrittenAgreesBelowWrap | server/server/src/Controller/UserController.cs:158-165 | for every page up to 214748365, where `(page - 1) * 10` fits in an `int`, the endpoint as written returns the exact page |
| UserController.TotalScoreLeaderboard | server/server/src/Controller/UserController.cs:157-168 | `GetTotalScoreLeaderBoard` is the as-written endpoint over the total-score ranking: 400 below page 1, otherwise the page at the wrapped skip |
| UserController.HighScoreLeaderboard | server/server/src/Controller/UserController.cs:170-182 | `GetHighScoreLeaderBoard` is the as-written endpoint over the high-score ranking: 400 below page 1, otherwise the page at the wrapped skip |
| UserController.SortedPage | server/server/src/User/UserHandler.cs:319-320 | whatever the skip, a negative one included, a page of a best-first ranking holds at most ten ranking entries and is itself best first |
| UserController.SortedRankingPage | server/server/src/Controller/UserController.cs:165 | with the exact skip, a page of a best-first ranking holds only ranking entries and is itself best first |
| UserController.TotalScorePageRanked | server/server/src/Controller/UserController.cs:157-168 | every accepted total-score page, a wrapped one included, holds at most ten users' totals, best first |
| UserController.HighScorePageRanked | server/server/src/Controller/UserController.cs:170-182 | every accepted high-score page, a wrapped one included, holds at most ten per-game maxima, best first |
| TimerInput.DigitsOf | client/src/components/timerInput.tsx:27 | the filtered value holds only digits and is no longer than the input |
| TimerInput.DigitsOfConcat | client/src/components/timerInput.tsx:27 | filtering a concatenation filters each part |
| TimerInput.DigitsOfDigits | client/src/components/timerInput.tsx:27 | a digit string passes the filter unchanged |
| TimerInput.HandleInputChange | client/src/components/timerInput.tsx:26-33 | the stored sequence is the input's digits when there are at most four, otherwise their last four |
| TimerInput.HandleInputChangeIdempotent | client/src/components/timerInput.tsx:26-33 | feeding the stored sequence back into the field stores it unchanged |
| TimerInput.FormatToTimer | client/src/components/timerInput.tsx:12-17 | a sequence of at most four digits shows as "MM:SS", whose digits are the sequence padded to four with '0' |
| TimerInput.SecondsBound | client/src/components/timerInput.tsx:19-24 | a time is at most 99 * 60 + 99 seconds |
| TimerInput.TwoDigitsZero | client/src/components/timerInput.tsx:21-22 | a two-digit field is worth zero exactly when it reads "00" |
| TimerInput.ZeroDisplayIffZeroSeconds | client/src/components/timerInput.tsx:36-40 | a stored sequence shows "00:00" exactly when it is worth zero seconds |
| TimerInput.ReportedIsConverted | client/src/components/timerInput.tsx:35-42 | the seconds reported, including the empty and "00:00" cases, are always the sequence's value |
| TimerInput.DisplayEmptyIffIdleZero | client/src/components/timerInput.tsx:44-46 | the field shows nothing exactly when it is unfocused and worth zero seconds |
| TimerInput.Example1234 | client/src/FrontTests/components/timerInput.test.tsx:22-24 | typing "1234" shows "12:34" and reports 754 seconds |
| TimerInput.Example56 | client/src/FrontTests/components/timerInput.test.tsx:26-28 | typing "56" shows "00:56" and reports 56 seconds |
| TimerInput.Example12345 | client/src/FrontTests/components/timerInput.test.tsx:48-50 | typing "12345" keeps "2345", which shows "23:45" and reports 1425 seconds |
| TimerMode2.JsRem | client/src/components/timerMode2.tsx:64 | JavaScript's `%`: the remainder's magnitude is below the divisor, and it has the dividend's sign |
| TimerMode2.TwoDigits | client/src/components/timerMode2.tsx:65 | a number below 100 prints as two digits that read back as the number |
| TimerMode2.FormatTimeRoundTrip | client/src/components/timerMode2.tsx:62-66 | every time from 0 to 99:59 shows as "MM:SS", whose two fields read back as the time |
| TimerMode2.FormatTimeExamples | client/src/FrontTests/components/timerMode2.test.tsx:17-34 | 120 seconds show as "02:00" and 119 as "01:59" |
| TimerMode2.Ticked | client/src/components/timerMode2.tsx:22-43 | an inactive timer does nothing. An active one counts down when `initialTime` is positive, otherwise up. It reports the new time, and completes exactly when a countdown reaches 0, which stops the timer and resets it to `initialTime` |
| TimerMode2.TickKeepsConsistent | client/src/components/timerMode2.tsx:22-49 | a tick keeps the timer consistent: stopped at `initialTime`, or a running countdown within 1 to `initialTime`, or a count-up never below its start |
| TimerMode2.ResetStopConsistent | client/src/components/timerMode2.tsx:45-58 | `reset` and `stop` leave the timer consistent |
| TimerMode2.CountdownRuns | client/src/components/timerMode2.tsx:25-36 | after a reset, a countdown runs for `initialTime - 1` ticks, one second less each time |
| TimerMode2.CountdownCompletes | client/src/components/timerMode2.tsx:28-33 | the next tick completes, reports "00:00" and leaves the timer stopped at `initialTime` |
| TimerMode2.CountUpRuns | client/src/components/timerMode2.tsx:27-28 | a count-up shows `initialTime + n` after `n` ticks and never completes |
| TimerMode2.TimerComponent.constructor | client/src/components/timerMode2.tsx:18-20 | a new timer runs from `initialTime` |
| TimerMode2.TimerComponent.Tick | client/src/components/timerMode2.tsx:25-35 | one interval callback changes the state and reports as `Ticked` does |
| TimerMode2.TimerComponent.Reset | client/src/components/timerMode2.tsx:52-55 | `reset` sets the time back to `initialTime` and starts the timer |
| TimerMode2.TimerComponent.Stop | client/src/components/timerMode2.tsx:56-58 | `stop` stops the timer, and the effect resets the time to `initialTime` |
| TimerMode2.TimerComponent.GetTime | client/src/components/timerMode2.tsx:59 | `getTime` returns the current seconds |
| Mode2Task.MaxHealth | client/src/pages/mode2/mode2Task.tsx:18-31 | full health is 10, 5, 3 or 1 for Easy, Medium, Hard and EXTREME, and 5 for any other difficulty |
| Mode2Task.DifficultyReset | client/src/pages/mode2/mode2Task.tsx:48-55 | a difficulty change restores full health for the new difficulty and zeroes points, combo and correct words |
| Mode2Task.Moved | client/src/pages/mode2/mode2Task.tsx:143-144 | a step keeps the word and lowers it by its fall speed times `dt` |
| Mode2Task.Pass | client/src/pages/mode2/mode2Task.tsx:131-212 | the pass never leaves more words plus requests than the list had |
| Mode2Task.Survivors | client/src/pages/mode2/mode2Task.tsx:186-212 | no word that stays is below the ground or touching the player |
| Mode2Task.Leaving | client/src/pages/mode2/mode2Task.tsx:186-212 | every word that leaves is below the ground or touching the player |
| Mode2Task.PassKeepsSurvivors | client/src/pages/mode2/mode2Task.tsx:131-212 | without `undefined` slots, every word is moved once and the words left are exactly those that stay, in order |
| Mode2Task.PassScoresLeaving | client/src/pages/mode2/mode2Task.tsx:186-211 | without `undefined` slots, there is one request per leaving word, in order, carrying the score at tick time. `collision` is false exactly for a ground hit |
| Mode2Task.SurvivorsAndLeaving | client/src/pages/mode2/mode2Task.tsx:186-212 | every word either stays or is scored |
| Mode2Task.UndefinedSkipsNext | client/src/pages/mode2/mode2Task.tsx:138-141 | after an `undefined` slot is spliced out, the next word is passed over unmoved and unscored |
| Mode2Task.PassRequestsCarryScore | client/src/pages/mode2/mode2Task.tsx:186-211 | every request of a pass, `undefined` slots or not, carries the points and combo the pass started from |
| Mode2Task.ApplyReply | client/src/pages/mode2/mode2Task.tsx:188-209 | points and combo become the server's. Lower points cost one health, and a catch that does not lower the points counts one correct word |
| Mode2Task.RepliesCount | client/src/pages/mode2/mode2Task.tsx:188-209 | over any replies, health falls by the number of replies that lower the points, and correct words rise by the number of catches that do not |
| Mode2Task.GroundHitsNeverCorrect | client/src/pages/mode2/mode2Task.tsx:188-194 | ground hits never count as correct words |
| Mode2Task.Mode2Game.constructor | client/src/pages/mode2/mode2Task.tsx:33-57 | a new component has no words, full health in `healthState`, shows zero points, combo and correct words, and has built callback 0 over the first render's difficulty and zeroed locals; the canvas has no callback yet |
| Mode2Task.Mode2Game.ChangeDifficulty | client/src/pages/mode2/mode2Task.tsx:48-55 | only `healthState` and what the parent shows are reset; the callbacks keep the difficulty and score they captured |
| Mode2Task.Mode2Game.SetGameStarted | client/src/pages/mode2/mode2Task.tsx:93-94 | the effect builds a new callback over the current difficulty and fresh locals, with health from `healthState`; the falling words stay |
| Mode2Task.Mode2Game.Render | client/src/pages/mode2/mode2Task.tsx:219-227 | the canvas is handed the callback last built, if there is a new one; otherwise it keeps the one it has |
| Mode2Task.Mode2Game.OnMouseMove | client/src/pages/mode2/mode2Task.tsx:67-72 | the parent is shown 0 points, the latest render's own `points`; nothing else changes |
| Mode2Task.Mode2Game.OnReply | client/src/pages/mode2/mode2Task.tsx:188-209 | a reply to the running callback's request makes its score `ApplyReply` of the old one; a reply to an earlier callback changes nothing |
| Mode2Task.Mode2Game.OnTick | client/src/pages/mode2/mode2Task.tsx:94-218 | without a callback, or with one built before the game started, nothing changes. Otherwise a word is spawned at the rate of the callback's own difficulty, the list and the requests are those of `Pass` with the callback's score, and the parent is shown that score whenever the list was not empty |
| Mode2Task.Mode2Game.CollisionPass | client/src/pages/mode2/mode2Task.tsx:131-212 | the loop leaves the list and sends the requests of `Pass` |
| Mode2Task.CollideAt | client/src/pages/mode2/mode2Task.tsx:131-212 | one loop turn makes progress and keeps the pass's output unchanged |
| Mode2Task.SkipUndefined | client/src/pages/mode2/mode2Task.tsx:138-141 | the `undefined` branch makes progress and keeps the pass's output unchanged |
| Mode2Task.MoveWord | client/src/pages/mode2/mode2Task.tsx:143-211 | the word branch makes progress and keeps the pass's output unchanged |
| Mode2Task.NoneStep | client/src/pages/mode2/mode2Task.tsx:138-141 | a pass over a list starting with `undefined` keeps the next element as it is |
| Mode2Task.SomeStep | client/src/pages/mode2/mode2Task.tsx:186-211 | a pass over a list starting with a word scores it as a ground hit, scores it as a catch, or keeps it moved |
| TableSort.StrLessAsymmetric | client/src/components/tables/leaderboardTable.tsx:24-27 | JavaScript's `<` on strings never holds both ways |
| TableSort.StrLessTrichotomy | client/src/components/tables/leaderboardTable.tsx:24-27 | two strings are equal or one is `<` the other |
| TableSort.StrLessTransitive | client/src/components/tables/leaderboardTable.tsx:24-27 | string `<` is transitive |
| TableSort.LessStrictTotal | client/src/components/tables/leaderboardTable.tsx:24-27 | on values of one kind, `<` is a strict total order |
| TableSort.LessTransitive | client/src/components/tables/leaderboardTable.tsx:24-27 | `<` on cell values is transitive |
| TableSort.Compare | client/src/components/tables/leaderboardTable.tsx:21-31 | the comparator is negative exactly when `x` goes first in the configured direction, and zero exactly when neither value is below the other |
| TableSort.SortedData | client/src/components/tables/leaderboardTable.tsx:19-34 | without a configuration the rows are the data itself. With one they are a permutation of the data |
| TableSort.InOrderPreorder | client/src/components/tables/tableComponent.tsx:15-25 | on a column of one kind, the comparator orders the rows as a total preorder |
| TableSort.SortedDataOrdered | client/src/components/tables/tableComponent.tsx:13-28 | on a column of one kind, the sorted copy is in the configured direction |
| TableSort.HandleSort | client/src/components/tables/leaderboardTable.tsx:36-45 | the clicked column becomes the key. The same column flips the direction, and another one starts ascending |
| TableSort.HandleSortTwice | client/src/components/tables/leaderboardTable.tsx:36-45 | two clicks on the sorted column restore its configuration |
| TableSort.ClickSequence | client/src/components/tables/leaderboardTable.tsx:36-45 | clicks on a new column sort ascending, then descending, then ascending again |
| LeaderboardTable.ColumnValue | client/src/components/tables/leaderboardTable.tsx:5-9 | score cells are numbers, the others strings, and none is missing |
| LeaderboardTable.SortedRows | client/src/components/tables/leaderboardTable.tsx:19-34 | without a configuration the rows are the data itself. With one they are a permutation of the data |
| LeaderboardTable.SortedRowsOrdered | client/src/components/tables/leaderboardTable.tsx:19-34 | each column is sorted in the configured direction |
| LeaderboardTable.FillerRows | client/src/components/tables/leaderboardTable.tsx:85 | the filler pads the table to ten rows, and there is none from ten rows on |
| LeaderboardTable.Body | client/src/components/tables/leaderboardTable.tsx:76-92 | the body has max(10, n) rows: the sorted rows' player, score and date, then blank filler rows |
| LeaderboardTable.HeaderClass | client/src/components/tables/leaderboardTable.tsx:56-73 | only the sorted column's header has a class, "sort-asc" or "sort-desc" by direction |
| LeaderboardTable.ScoreClicks | client/src/components/tables/leaderboardTable.tsx:36-73 | a first click on Score sorts ascending and marks only that header, and a second sorts descending |
| TableComponent.Lookup | client/src/components/tables/tableComponent.tsx:16-17 | a column a row lacks reads as `undefined` |
| TableComponent.HeaderLabel | client/src/components/tables/tableComponent.tsx:41 | the header shows its first character upper-cased and the rest unchanged |
| TableComponent.HeaderLabelExamples | client/src/components/tables/tableComponent.tsx:41 | "gamemode", "score" and "date" show as "Gamemode", "Score" and "Date", and an empty header stays empty |
| TableComponent.RowCells | client/src/components/tables/tableComponent.tsx:50-52 | one cell per header, showing the row's value in that column |
| TableComponent.Body | client/src/components/tables/tableComponent.tsx:47-63 | a non-empty table shows one row per sorted row. An empty one shows ten rows of blank cells, one per header |
| TableComponent.BodyShowsEachRow | client/src/components/tables/tableComponent.tsx:47-54 | the body of a non-empty table shows every data row exactly as often as the data holds it |
| TableComponent.BodySorted | client/src/components/tables/tableComponent.tsx:13-28 | on a column of one kind, the rows shown are in the configured direction |
| BulletPoint.ListStyleType | client/src/components/bulletPoint.tsx:21-24 | a bullet is a filled disc exactly when it is the selected one |
| BulletPoint.Color | client/src/components/bulletPoint.tsx:25-39 | with no answer shown every bullet has the default colour. Once the answer is shown, the correct bullet is green when it was the chosen variant and blue otherwise, a selected wrong bullet is red, and the rest have the default colour |
| BulletPoint.OneCorrectColour | client/src/components/bulletPoint.tsx:29-31 | once the answer is shown, exactly the correct bullet is green or blue |
| BulletPoint.RedIsSelectedWrong | client/src/components/bulletPoint.tsx:33-35 | only one bullet can be red: the selected one, when it is wrong |
| BulletPoint.OneDisc | client/src/components/bulletPoint.tsx:21-24 | at most one bullet is a filled disc, the selected one |
| BulletPoint.Clicked | client/src/components/bulletPoint.tsx:46-49 | a click selects its bullet, except once the answer is shown, when it changes nothing |
| BulletPoint.ResetSelection | client/src/components/bulletPoint.tsx:11-13 | the selection resets to the given variant, or to none (-1) |
| BulletPoint.ClicksIgnoredOnceRevealed | client/src/components/bulletPoint.tsx:47 | once the answer is shown, no sequence of clicks changes the selection |
| BulletPoint.LastClickWins | client/src/components/bulletPoint.tsx:46-49 | before the answer is shown, the last click decides the selection |
| QuestionPoints.InitialSelections | client/src/pages/mode1/questionPoints.tsx:16-20 | one unselected slot (-1) per question, and none without questions |
| QuestionPoints.UpdateSelection | client/src/pages/mode1/questionPoints.tsx:42-46 | the slot of the question is set, every other slot is kept, and writing past the end leaves holes |
| QuestionPoints.UpdatesCommute | client/src/pages/mode1/questionPoints.tsx:42-46 | reports from two different questions made in separate commits, each from the array the previous one left, commute |
| QuestionPoints.BatchKeepsLast | client/src/pages/mode1/questionPoints.tsx:42-46 | reports made in one commit each copy that render's `selections`, so the state they leave is the rendered array with only the last report written |
| QuestionPoints.SameCommitLosesEarlier | client/src/pages/mode1/questionPoints.tsx:42-46 | of two questions reporting in one commit, the earlier one's entry keeps its rendered value, while in separate commits both land |
| QuestionPoints.LaterUpdateWins | client/src/pages/mode1/questionPoints.tsx:42-46 | of two updates to one question, the later one wins |
| QuestionPoints.UpdateAfterReset | client/src/pages/mode1/questionPoints.tsx:16-46 | after a reset, one update selects its question and leaves every other question unselected |
| QuestionPoints.ShowsPlaceholder | client/src/pages/mode1/questionPoints.tsx:30 | the placeholder shows exactly when there are no questions |
| QuestionPoints.TitleColor | client/src/pages/mode1/questionPoints.tsx:33-37 | a question's title is uncoloured until the answer is shown, then green when the chosen variant is correct and red otherwise |
| QuestionPoints.TitleAgreesWithBullets | client/src/pages/mode1/questionPoints.tsx:33-37 | the title is green exactly when the correct bullet is green, and red exactly when it is blue |
| UserPage.GameMode | client/src/pages/userSearch/userPage.tsx:28-32 | tasks 1, 2 and 3 are "Q&A", "Catch the Word" and "BookScape", and any other task is "Unknown" |
| UserPage.RowOf | client/src/pages/userSearch/userPage.tsx:64-68 | a history row shows its task's game mode and its score |
| UserPage.TotalScoreConcat | client/src/pages/userSearch/userPage.tsx:56-62 | the total of two histories put together is the sum of their totals |
| UserPage.TotalScoreBounds | client/src/pages/userSearch/userPage.tsx:56-62 | with non-negative scores, the total is at least every single score |
| UserPage.TotalScoreNonNegative | client/src/pages/userSearch/userPage.tsx:56-62 | with non-negative scores, the total is non-negative |
| UserPage.TransformHistory | client/src/pages/userSearch/userPage.tsx:56-73 | one row per history item, in order. Games played is the item count, and the total is the sum of the scores |
| UserPage.TwoGames | client/src/FrontTests/userPage.test.tsx:26-61 | histories of 100 on task 1 and 200 on task 2 total 300 and show as "Q&A" and "Catch the Word" |
| Search.Matching | client/src/pages/userSearch/search.tsx:85-87 | an option is kept exactly when its lower-cased name contains the needle |
| Search.FilterOptions | client/src/pages/userSearch/search.tsx:84-88 | an empty input shows nothing. Otherwise exactly the options whose names contain the input, ignoring case, are shown |
| Search.MatchingKeepsOrder | client/src/pages/userSearch/search.tsx:85-87 | the kept options are in their original order |
| Search.FilterKeepsOrder | client/src/pages/userSearch/search.tsx:84-88 | the options shown are in their original order |
| Search.LowerIdempotent | client/src/pages/userSearch/search.tsx:86 | lower-casing twice is lower-casing once |
| Search.FilterIgnoresCase | client/src/pages/userSearch/search.tsx:84-88 | the options shown do not depend on the input's case |
| Search.OnChange | client/src/pages/userSearch/search.tsx:79-83 | choosing an option sets the search to its name, and clearing the choice keeps the search |
| Search.FilterExample | client/src/pages/userSearch/search.tsx:84-88 | "a" shows "Al" and not "Bo" |
| Forms.RequiredError | client/src/pages/register/registerPage.tsx:32-37 | an empty field shows its message, and a filled one shows no error |
| RegisterPage.RepeatError | client/src/pages/register/registerPage.tsx:53-61 | an empty repeat asks to be filled in, a different one reports a mismatch, and a matching one shows no error |
| RegisterPage.SentIffNoErrors | client/src/pages/register/registerPage.tsx:30-64 | the form is sent exactly when no field shows an error |
| RegisterPage.ErrorsIndependent | client/src/pages/register/registerPage.tsx:32-61 | each field's error depends only on that field, and the repeat field's on both passwords |
| RegisterPage.OnFailure | client/src/pages/register/registerPage.tsx:68-79 | a non-Error marks the username "An unknown error occurred.". A message that mentions the username being taken marks only the username, one that mentions the email marks only the email, and any other message changes nothing |
| RegisterPage.ServerErrorOnOneField | client/src/pages/register/registerPage.tsx:64-79 | a refusal of a valid form marks at most one of username and email, and neither password field |
| RegisterPage.RegisterForm.constructor | client/src/pages/register/registerPage.tsx:12-21 | the form starts with every field and every error empty |
| RegisterPage.RegisterForm.HandleSubmit | client/src/pages/register/registerPage.tsx:28-81 | a request is sent exactly when the form is valid, carrying email, password and username. Authentication is rechecked exactly on success, and the errors are `SubmitErrors` |
| LoginPage.CheckErrors | client/src/pages/login/loginPage.tsx:30-41 | each field's error is its required-field error |
| LoginPage.SentIffNoErrors | client/src/pages/login/loginPage.tsx:29-42 | the form is sent exactly when no field shows an error |
| LoginPage.OnFailure | client/src/pages/login/loginPage.tsx:46-63 | "User not found" marks the email and "Invalid password" the password. Anything else marks the password with the unknown-error message |
| LoginPage.RefusalShowsOneError | client/src/pages/login/loginPage.tsx:42-63 | a refused login shows exactly one error, on the email exactly for "User not found" |
| LoginPage.MessageMatchedExactly | client/src/pages/login/loginPage.tsx:52 | the message must match exactly: "User not found." falls through to the unknown-error message |
| LoginPage.LoginForm.constructor | client/src/pages/login/loginPage.tsx:1-19 | the form starts with every field and every error empty |
| LoginPage.LoginForm.HandleSubmit | client/src/pages/login/loginPage.tsx:27-65 | a request is sent exactly when both fields are filled, carrying both. Authentication is rechecked exactly on success, and the errors are `SubmitErrors` |
| ChangePassword.RepeatError | client/src/pages/settings/changePassword.tsx:46-54 | an empty repeat asks to be filled in, a different one reports a mismatch, and a matching one shows no error |
| ChangePassword.PostedIffNoErrors | client/src/pages/settings/changePassword.tsx:30-55 | the request is posted exactly when no field shows an error |
| ChangePassword.AnyFailureSameMessage | client/src/pages/settings/changePassword.tsx:66-69 | every failure, whatever its cause, marks only the old password as incorrect |
| ChangePassword.ChangePasswordForm.constructor | client/src/pages/settings/changePassword.tsx:15-20 | the form starts with every field and every error empty |
| ChangePassword.ChangePasswordForm.HandleSubmit | client/src/pages/settings/changePassword.tsx:28-71 | the request is posted exactly when the form is valid, carrying the old and new passwords. Success navigates to the settings, and the errors are `SubmitErrors` |
| SettingsPage.ThemePalette | client/src/pages/settings/settingsPage.tsx:41-63 | Light and Dark have their own colours, and Olive or any other theme gets the olive palette |
| SettingsPage.ThemesDistinct | client/src/pages/settings/settingsPage.tsx:43-63 | the three themes have three different palettes |
| SettingsPage.FontValue | client/src/pages/settings/settingsPage.tsx:20-32 | Merriweather selects its serif stack, and every other font selects Poppins |
| SettingsPage.ThemeProperties | client/src/pages/settings/settingsPage.tsx:64-67 | a theme writes exactly the four colour properties, with the primary colour equal to the background |
| SettingsPage.ThemeWrites | client/src/pages/settings/settingsPage.tsx:64-67 | the four writes in sequence equal overriding the style with `ThemeProperties` |
| SettingsPage.Settings.constructor | client/src/pages/settings/settingsPage.tsx:11-12 | the page starts on Olive and Poppins, with the style untouched |
| SettingsPage.Settings.HandleThemeChange | client/src/pages/settings/settingsPage.tsx:36-39 | the theme is recorded, and the style becomes the old one overridden by the theme's properties |
| SettingsPage.Settings.HandleFontChange | client/src/pages/settings/settingsPage.tsx:15-18 | the font is recorded, only `--fontStyle` changes, and it becomes the font's value |
| SettingsPage.PrimaryIsBackground | client/src/pages/settings/settingsPage.tsx:64-65 | after a theme change, the primary colour and the background are the theme's main background |
| SettingsPage.ChangesIndependent | client/src/pages/settings/settingsPage.tsx:15-39 | a theme change and a font change do not disturb each other, in either order |

## Left out

- PhysicsWorld.cpp is not part of this model. The physics world is modelled from `PhysicsWorld.h` and its callers. Bullet's stepping, contact manifolds, ray geometry, transforms, velocities and impulses are numerics in an unseen library, so ray hits and their distances are inputs and the ground check is an abstract event.
- The ray cast's hit points and normals are not modelled, because nothing modelled reads them. Only the entity and the distance along the ray are kept.
- The wgleng `Actions.h` and the key mapper are not part of this model. The enabled-action set starts with every action enabled. `WinGame`, which `SecretDoorScript.cpp` uses but `GameActions.h` does not list, is included.
- Rendering, UI and main-loop code are not modelled, because they compute nothing the core's properties depend on:
  - SettingsScreen (ImGui), main.cpp (the emscripten loop), ModelInit (mesh loading);
  - ControlHintsScript's layout, target highlighting and the canvas drawing;
  - the camera and movement maths, and placing the fake book in front of the camera.
- The JavaScript calls of SecretDoorScript (`EM_ASM`, emscripten bindings) are not made. The page calls are the values the methods return, and the page's answers are method calls.
- Mode2Task: the collision geometry (text metrics, rotation, circle test) is the parameter `caught`. The random spawn is the parameters `roll` and `spawned`, and reply promises are applied in arrival order (`ApplyReplies`), not at an interleaving chosen by the network.
- Mode2Task: React's scheduling is reduced to three events. `SetGameStarted` builds a new tick closure, `Render` hands the latest closure to the canvas, and `OnTick` runs the closure the canvas holds. Effects are not modelled otherwise.
- `mode2Page.tsx` is not part of this model. The parent's setters and the `difficulty` and `gameStarted` props are taken as supplied.
- Mode2Task.PassKeepsSurvivors: the statement that no word is passed over holds only for lists without `undefined` slots. `UndefinedSkipsNext` shows that the loop does pass over the word after an `undefined` slot. The game never stores `undefined`, so this is not listed as a finding.
- Task3HintGenerator: the seeded .NET `Random` is a parameter. Which draws `new Random(version)` produces is not modelled. Because the draws are a function of the version, the same version and count give the same hints by construction.
- UserHandler operations outside the modelled flows are left out: `LoginUserAsync` (JWT tokens), `DeleteUserAsync`, `GetAllUsersAsync`, `GetUserAsync`, `GetSettingsIdByEmailAsync`, `GetSettingsThemeById`, `GetSettingsFontById` and `GetEmailByNameAsync`. They are single lookups or token plumbing. `GetUserByEmailAsync` is a map lookup in the model, and `GetAllUsersAsync` is the list `GetAllUsers` receives.
- BCrypt's `HashPassword` and `VerifyPassword` are parameters (`hash`, `verify`), not an implementation of the algorithm.
- EF Core plumbing is not modelled: `FlashDbContext` mapping, migrations, `DbContextFactory` and dependency injection. Tables are maps, and a failing `SaveChangesAsync` is modelled only where the code catches it.
- Exceptions thrown by the user handler propagate to the exception middleware. The controllers' replies model the exception path as the absence of a reply.
- SessionManager: the `ConcurrentDictionary` and the background service are modelled sequentially. A health check sees every session at one instant `now`, and the enumeration order is a parameter.
- Leaderboards.TotalEntries: C#'s checked `Sum` over `int` throws on overflow. The model sums unbounded integers.
- ChatController.NextIndex: `ChatIndex + 1` wraps at `int.MaxValue` in C#. The model's index is unbounded.
- DeleteUser: a `User not found` thrown by the handler is an exception, not a reply. The model records the handler call and the `Ok` reply the code returns after it.
- The default picture file is read from disk in `GetProfilePicture`. Its bytes are the parameter `defaultPicture`, and the file I/O is not modelled.
- Console and `ILogger` output is not modelled, because it does not affect any result.
- TimerInput.ConvertToSeconds requires a digit string. `parseInt` on other input is not modelled, and `HandleInputChange` stores only digits.
- TableSort.Less: JavaScript's `<` between values of different kinds (string against number, with coercion) is modelled as unordered. Strings compare by Dafny `char`, which agrees with JavaScript's UTF-16 code-unit order only outside the surrogate range.
- `types.ts`, the row type of the generic table, is not part of this model. A row is a map from column name to value.
- `HeaderLabel` and the search filter's case mapping use ASCII `toUpperCase`/`toLowerCase`.
- UserPage: date and time formatting (`toLocaleDateString`, `toLocaleTimeString`) is locale-dependent and is the parameter `formatDate`. The join-date line and the picture conversion are not modelled.
- ChangePassword: the bearer token read from the `authToken` cookie is not modelled, and the request is modelled without its headers.
- SettingsPage: `document.documentElement.style` is the map `style`. The unused `fontSize` state is left out.
- The `onChanged` notification effects of BulletPoint and QuestionPoints are not modelled as calls. A report is `UpdateSelection` on the array of the render that built the callback. Reports made in one commit are `ApplyBatch`, where only the last one lands, and the effect loop that re-reports every selection after each change is not modelled.
- C++ `float` and glm vectors in ObjectCarry, and JavaScript `number` in Mode2Task, are Dafny `real`. Rounding, infinities and NaN are not modelled.
- PhysicsWorld.World.DestroyRigidBody: a null body is taken to remove nothing, because PhysicsWorld.cpp is not part of this model.
- Sorting copies are values in the model, so "the input array is not mutated" holds by construction rather than by proof.
- Not modelled: the networked and presentational client code (axios wrapper, chat components and polling, VisualSettingsContext, App's session ping, profile page, dropdown, home, about, contact, mode2 and mode3 pages, history table, profile card, animated text, message handles and search input); the thin controllers (AccountSettings, Auth, HealthCheck, Task, Task3).

## Findings

| source | as written | input that shows it | evidently intended | confidence | as-written member | corrected member |
|---|---|---|---|---|---|---|
| client/wasm/src/game/ObjectCarry.cpp:47-50 | `Update` drops the carried object whenever it lags at least the drop distance behind its target. It never reads `canDropByItself`, which ObjectInteractScript.cpp:82 clears while a book is being read | a book carried with a latched pickup distance of 1 whose body is 100 away from its target, while reading has cleared `canDropByItself` | the object is dropped only while `canDropByItself` is set | medium; not executed | ObjectCarry.UpdateAsWritten, ObjectCarry.AsWrittenIgnoresFlag | ObjectCarry.UpdateCorrected, ObjectCarry.CorrectedNeverDropsWhenForbidden |
| server/server/src/Controller/UserController.cs:163 | `skip = (page - 1) * pageSize` is unchecked 32-bit `int` arithmetic, so it wraps for pages above 214748365 (line 177 likewise) | `page = 214748366` gives `skip = -2147483646`, and `Skip` of a negative count skips nothing, so page 1 is returned again | a page past the end of the ranking is empty | high; not executed | UserController.RankingPageAsWritten, UserController.OverflowedPageRepeatsFirst | UserController.RankingPage, UserController.OverflowedPageCorrected |
