/** The script that lets the player read a carried hint book. Interacting with a held hint
    book starts reading: the real book is hidden and stops colliding and falling, a fake open
    book is created, and picking up, throwing and self-dropping are switched off. Interacting
    again stops reading and undoes all of it. Both operations stop early at a book whose
    `RigidBodyComponent` holds a null body. Placing the fake book in front of the camera is
    camera maths and is not modelled. */
module ObjectInteractScript {
  import opened Wrappers
  import opened PhysicsWorld
  import opened Scene
  import opened ObjectCarry
  import opened Player
  import opened GameActions

  const HintBookTag: string := "hintBook"

  /** The fake book, `CreateDefaultEntity` with an "openBook" mesh. */
  const FakeBookComponents: Components := NoComponents.(mesh := Some(MeshComponent("openBook", false)))

  /** The components with the mesh, if any, hidden or shown. */
  function WithHidden(c: Components, hidden: bool): (r: Components)
    ensures r.mesh.Some? <==> c.mesh.Some?
    ensures r.mesh.Some? ==> r.mesh.value == c.mesh.value.(hidden := hidden)
    ensures r.(mesh := c.mesh) == c
  {
    if c.mesh.Some? then c.(mesh := Some(c.mesh.value.(hidden := hidden))) else c
  }

  /** Showing a book that was shown before reading started gives back its components as
      they were. */
  lemma HideShowRestores(c: Components)
    requires c.mesh.Some? ==> !c.mesh.value.hidden
    ensures WithHidden(WithHidden(c, true), false) == c
  {
  }

  /** Whether interacting with `held` starts reading: it must be flagged INTERACTABLE and be
      tagged "hintBook". */
  predicate IsReadable(comps: map<Entity, Components>, held: Entity) {
    Interactable in FlagsOf(comps, held) && TagOf(comps, held) == Some(HintBookTag)
  }

  /** An untagged or non-interactable entity is never read. */
  lemma UntaggedNotReadable(comps: map<Entity, Components>, held: Entity)
    requires TagOf(comps, held).None? || Interactable !in FlagsOf(comps, held)
    ensures !IsReadable(comps, held)
  {
  }

  /** Only a live entity is readable, and then exactly a flagged hint book. */
  lemma ReadableIsLiveHintBook(comps: map<Entity, Components>, held: Entity)
    ensures IsReadable(comps, held) <==>
      held in comps && Interactable in comps[held].flags && comps[held].tag == Some(HintBookTag)
  {
  }

  class ObjectInteractScript {
    const player: Player
    const actions: Actions
    var reading: bool
    var realBook: Option<Entity>
    var fakeBook: Option<Entity>

    /** While reading the real book is remembered; outside reading nothing is. */
    ghost predicate Valid()
      reads this`reading, this`realBook, this`fakeBook
    {
      (reading ==> realBook.Some?) && (!reading ==> realBook.None? && fakeBook.None?)
    }

    constructor(player: Player, actions: Actions)
      ensures this.player == player && this.actions == actions
      ensures Valid() && !reading
    {
      this.player := player;
      this.actions := actions;
      reading := false;
      realBook := None;
      fakeBook := None;
    }

    /** `StartReading(book)`, up to the null-body check: reading is on, the book is
        remembered and its mesh hidden. Returns the book's body pointer if it has the
        component. */
    method BeginReading(book: Entity) returns (rb: Option<Option<BodyId>>)
      requires player.scene.Valid() && book in player.scene.components
      modifies this`reading, this`realBook, player.scene`components
      ensures player.scene.Valid()
      ensures reading && realBook == Some(book)
      ensures player.scene.components == old(player.scene.components)[book := WithHidden(old(player.scene.components)[book], true)]
      ensures rb == old(player.scene.components)[book].rigidBody
    {
      var scene := player.scene;
      reading := true;
      realBook := Some(book);
      var c := scene.components[book];
      if c.mesh.Some? {
        scene.SetComponents(book, c.(mesh := Some(c.mesh.value.(hidden := true))));
      }
      rb := c.rigidBody;
    }

    /** The rest of `StartReading`: the fake book, and the actions and self-drop switched off. */
    method CreateFakeBook()
      requires player.scene.Valid()
      modifies this`fakeBook, player.scene, actions`enabled, player.objectCarry`canDropByItself
      ensures player.scene.Valid() && player.scene.world.bodies == old(player.scene.world.bodies)
      ensures fakeBook == Some(old(player.scene.nextEntity)) && fakeBook.value !in old(player.scene.components)
      ensures player.scene.components == old(player.scene.components)[fakeBook.value := FakeBookComponents]
      ensures actions.enabled == old(actions.enabled) - {PickUp, Throw}
      ensures !player.objectCarry.canDropByItself
    {
      var fake := player.scene.CreateEntity(FakeBookComponents);
      fakeBook := Some(fake);
      player.objectCarry.canDropByItself := false;
      actions.Disable(PickUp);
      actions.Disable(Throw);
    }

    /** `StartReading(book)`: the book's mesh is hidden. With a null body it stops there;
        otherwise the body (if any) stops colliding and falling, the fake book is created and
        picking up, throwing and self-dropping are switched off. */
    method StartReading(book: Entity)
      requires player.scene.Valid() && book in player.scene.components
      modifies this`reading, this`realBook, this`fakeBook, player.scene, player.scene.world`bodies,
        actions`enabled, player.objectCarry`canDropByItself
      ensures player.scene.Valid() && Valid() && reading && realBook == Some(book)
      ensures var c := old(player.scene.components)[book];
        var hidden := old(player.scene.components)[book := WithHidden(c, true)];
        if c.rigidBody.Some? && c.rigidBody.value.None? then
          player.scene.components == hidden && fakeBook == old(fakeBook) &&
          player.scene.world.bodies == old(player.scene.world.bodies) &&
          actions.enabled == old(actions.enabled) &&
          player.objectCarry.canDropByItself == old(player.objectCarry.canDropByItself)
        else
          fakeBook == Some(old(player.scene.nextEntity)) && book != fakeBook.value &&
          player.scene.components == hidden[fakeBook.value := FakeBookComponents] &&
          (BodyOf(c).Some? ==> player.scene.world.bodies == old(player.scene.world.bodies)[BodyOf(c).value :=
               old(player.scene.world.bodies)[BodyOf(c).value].(collides := false, gravity := false)]) &&
          (BodyOf(c).None? ==> player.scene.world.bodies == old(player.scene.world.bodies)) &&
          actions.enabled == old(actions.enabled) - {PickUp, Throw} && !player.objectCarry.canDropByItself
    {
      var rb := BeginReading(book);
      if rb.Some? {
        if rb.value.None? {
          return;
        }
        player.scene.SetBodyPhysics(rb.value.value, false, false);
      }
      CreateFakeBook();
    }

    /** The first step of `StopReading`: the fake book is destroyed if it is alive. */
    method DestroyFakeBook()
      requires player.scene.Valid()
      modifies player.scene`components, player.scene.world`bodies
      ensures player.scene.Valid()
      ensures player.scene.components ==
        if old(fakeBook).Some? && old(fakeBook).value in old(player.scene.components)
        then old(player.scene.components) - {fakeBook.value} else old(player.scene.components)
    {
      if fakeBook.Some? && fakeBook.value in player.scene.components {
        player.scene.Destroy(fakeBook.value);
      }
    }

    /** The second step: the real book, if alive, is shown again. Returns its body pointer if
        it is alive and has the component. */
    method ShowBook(book: Entity) returns (rb: Option<Option<BodyId>>)
      requires player.scene.Valid()
      modifies player.scene`components
      ensures player.scene.Valid()
      ensures player.scene.components ==
        if book in old(player.scene.components)
        then old(player.scene.components)[book := WithHidden(old(player.scene.components)[book], false)]
        else old(player.scene.components)
      ensures rb == if book in old(player.scene.components) then old(player.scene.components)[book].rigidBody else None
      ensures rb.Some? && rb.value.Some? ==> rb.value.value in player.scene.world.bodies
    {
      var scene := player.scene;
      rb := None;
      if book in scene.components {
        var c := scene.components[book];
        if c.mesh.Some? {
          scene.SetComponents(book, c.(mesh := Some(c.mesh.value.(hidden := false))));
        }
        rb := c.rigidBody;
      }
    }

    /** `StopReading`: the fake book is destroyed if alive and the real book shown again if
        alive. A real book whose component holds a null body stops it there, so reading stays
        on with the actions still off; otherwise its body (if any) collides and falls again,
        reading ends and picking up, throwing and self-dropping are back on. */
    method StopReading()
      requires player.scene.Valid() && Valid() && reading
      modifies this`reading, this`realBook, this`fakeBook, player.scene`components, player.scene.world`bodies,
        actions`enabled, player.objectCarry`canDropByItself
      ensures player.scene.Valid() && Valid()
      ensures var live := old(player.scene.components);
        var afterFake := if old(fakeBook).Some? && old(fakeBook).value in live then live - {old(fakeBook).value} else live;
        var book := old(realBook).value;
        var shown := if book in afterFake then afterFake[book := WithHidden(afterFake[book], false)] else afterFake;
        player.scene.components == shown &&
        if book in afterFake && afterFake[book].rigidBody.Some? && afterFake[book].rigidBody.value.None? then
          reading && realBook == old(realBook) && fakeBook == old(fakeBook) &&
          actions.enabled == old(actions.enabled) &&
          player.objectCarry.canDropByItself == old(player.objectCarry.canDropByItself)
        else
          !reading && realBook.None? && fakeBook.None? &&
          actions.enabled == old(actions.enabled) + {PickUp, Throw} && player.objectCarry.canDropByItself
    {
      DestroyFakeBook();
      var rb := ShowBook(realBook.value);
      if rb.Some? {
        if rb.value.None? {
          return;
        }
        player.scene.SetBodyPhysics(rb.value.value, true, true);
      }
      EndReading();
    }

    /** The last step of `StopReading`: nothing is remembered any more, and picking up,
        throwing and self-dropping are back on. */
    method EndReading()
      modifies this`reading, this`realBook, this`fakeBook, actions`enabled, player.objectCarry`canDropByItself
      ensures Valid() && !reading && realBook.None? && fakeBook.None?
      ensures actions.enabled == old(actions.enabled) + {PickUp, Throw} && player.objectCarry.canDropByItself
    {
      reading := false;
      realBook := None;
      fakeBook := None;
      player.objectCarry.canDropByItself := true;
      actions.Enable(PickUp);
      actions.Enable(Throw);
    }

    /** The Interact listener: while reading it stops reading, whatever is held; otherwise it
        starts reading the held object when that is a readable hint book, and does nothing
        else. Returns whether reading was started. */
    method OnInteract() returns (started: bool)
      requires player.scene.Valid() && Valid()
      requires player.objectCarry.carriedEntity.Some? ==> player.objectCarry.carriedEntity.value in player.scene.components
      modifies this`reading, this`realBook, this`fakeBook, player.scene, player.scene.world`bodies,
        actions`enabled, player.objectCarry`canDropByItself
      ensures player.scene.Valid() && Valid()
      ensures started <==> (!old(reading) && player.objectCarry.carriedEntity.Some? &&
        IsReadable(old(player.scene.components), player.objectCarry.carriedEntity.value))
      ensures started ==> reading && realBook == player.objectCarry.carriedEntity
      ensures !old(reading) && !started ==>
        reading == old(reading) && player.scene.components == old(player.scene.components) &&
        actions.enabled == old(actions.enabled) && player.scene.world.bodies == old(player.scene.world.bodies)
    {
      started := false;
      if reading {
        StopReading();
        return;
      }
      var held := player.objectCarry.carriedEntity;
      if held.None? {
        return;
      }
      var comps := player.scene.components;
      if Interactable !in FlagsOf(comps, held.value) {
        return;
      }
      var tag := TagOf(comps, held.value);
      if tag.None? {
        return;
      }
      if tag.value != HintBookTag {
        return;
      }
      StartReading(held.value);
      started := true;
    }
  }
}
