/** The script that lets the player pick up, drop and throw objects. The PickUp action only
    raises a flag that the next update consumes; the update looks for a pickable target while
    nothing is carried, shows the matching control hints, toggles the carry, and moves the
    carried object. Highlighting the target is rendering and is not modelled. */
module HeldObjectScript {
  import opened Wrappers
  import opened PhysicsWorld
  import opened Scene
  import opened ObjectCarry
  import opened Player
  import opened GameActions

  const ThrowForce: real := 10.0
  const PickupHint: string := "F - pickup"
  const DropHint: string := "F - drop"
  const ThrowHint: string := "Q - throw"

  /** The pick filter: never the entity already carried, and only entities flagged PICKABLE. */
  function PickFilter(comps: map<Entity, Components>, carried: Option<Entity>): RayHit -> bool {
    (h: RayHit) => carried != Some(h.entity) && Pickable in FlagsOf(comps, h.entity)
  }

  /** The update's target: the nearest accepted hit, searched only while nothing is carried. */
  function Target(comps: map<Entity, Components>, carried: Option<Entity>, hits: seq<RayHit>): (r: Option<Entity>)
    ensures carried.Some? ==> r.None?
    ensures r.Some? ==> exists h :: h in hits && h.entity == r.value && Pickable in FlagsOf(comps, h.entity)
    ensures r.None? && carried.None? ==> forall h :: h in hits ==> Pickable !in FlagsOf(comps, h.entity)
  {
    if carried.Some? then None
    else
      var first := FirstHit(hits, PickFilter(comps, carried));
      if first.Some? then Some(first.value.entity) else None
  }

  /** The target is a nearest pickable hit. */
  lemma TargetIsNearest(comps: map<Entity, Components>, hits: seq<RayHit>)
    requires Target(comps, None, hits).Some?
    ensures exists h :: (h in hits && h.entity == Target(comps, None, hits).value &&
                        forall g :: g in hits && Pickable in FlagsOf(comps, g.entity) ==> h.dist <= g.dist)
  {
    var first := FirstHit(hits, PickFilter(comps, None));
    assert first.value in hits;
  }

  /** The control hints of one update, in the order they are added. */
  function Hints(carried: Option<Entity>, target: Option<Entity>, enabled: set<Action>): (r: seq<string>)
    ensures PickupHint in r <==> carried.None? && target.Some?
    ensures DropHint in r <==> carried.Some? && PickUp in enabled
    ensures ThrowHint in r <==> carried.Some? && Throw in enabled
    ensures |r| <= 2
  {
    assert |PickupHint| == 10 && |DropHint| == 8 && |ThrowHint| == 9;
    if carried.None? then (if target.Some? then [PickupHint] else [])
    else (if PickUp in enabled then [DropHint] else []) + (if Throw in enabled then [ThrowHint] else [])
  }

  /** An empty-handed pickup carries the first pickable hit with its body, or nothing when no
      hit is pickable. */
  lemma PickupCarriesTarget(comps: map<Entity, Components>, hits: seq<RayHit>)
    requires HitsLive(comps, hits)
    ensures var t := Target(comps, None, hits);
      var r := Toggle(Empty, true, comps, t);
      r.carried == t && (t.Some? ==> r.body == BodyOf(comps[t.value]) && r.body.Some?)
  {
    var t := Target(comps, None, hits);
    if t.Some? {
      var h :| h in hits && h.entity == t.value && Pickable in FlagsOf(comps, h.entity);
      assert BodyOf(comps[h.entity]) == Some(h.body);
    }
  }

  /** Pressing pickup twice with nothing in between picks an object up and drops it again. */
  lemma PickupTwiceDrops(comps: map<Entity, Components>, hits: seq<RayHit>)
    requires HitsLive(comps, hits)
    ensures var first := Toggle(Empty, true, comps, Target(comps, None, hits));
      Toggle(first, true, comps, Target(comps, first.carried, hits)) == Empty
  {
  }

  class HeldObjectScript {
    const player: Player
    const actions: Actions
    var shouldPickup: bool

    constructor(player: Player, actions: Actions)
      ensures this.player == player && this.actions == actions && !shouldPickup
    {
      this.player := player;
      this.actions := actions;
      shouldPickup := false;
    }

    /** The PickUp listener only raises the flag. */
    method OnPickUp()
      modifies this`shouldPickup
      ensures shouldPickup
    {
      shouldPickup := true;
    }

    /** The Throw listener drops the carried object along the camera's front with force 10. */
    method OnThrow(front: Vec3) returns (impulse: Option<Impulse>)
      modifies player.objectCarry`carriedEntity, player.objectCarry`body, player.objectCarry`pickupDistance
      ensures player.objectCarry.Valid() && player.objectCarry.State() == Empty
      ensures impulse == DropImpulse(old(player.objectCarry.body), front, ThrowForce)
    {
      impulse := player.objectCarry.DropCarriedEntity(front, ThrowForce);
    }

    /** `Update`, given the hits along the camera ray and what Bullet reports for the carried
        body when the carry updates: the hints added, then the pickup flag consumed once (`Toggle`), then
        the carry moved (`UpdateAsWritten`). */
    method Update(hits: seq<RayHit>, pos: Vec3, holderPos: Vec3, holderFront: Vec3, distance: real)
      returns (hints: seq<string>, velocity: Option<Vec3>)
      requires player.objectCarry.Valid() && player.objectCarry.registry == player.scene
      requires HitsLive(player.scene.components, hits) && IsDistance(distance, pos, holderPos)
      modifies this`shouldPickup,
        player.objectCarry`carriedEntity, player.objectCarry`body, player.objectCarry`pickupDistance
      ensures player.objectCarry.Valid() && !shouldPickup
      ensures var carry := player.objectCarry;
        var comps := player.scene.components;
        var target := Target(comps, old(carry.carriedEntity), hits);
        var consumed := Toggle(old(carry.State()), old(shouldPickup), comps, target);
        var r := UpdateAsWritten(consumed, carry.dropDistance, pos, holderPos, holderFront, distance);
        hints == Hints(old(carry.carriedEntity), target, actions.enabled) &&
        carry.State() == r.next && velocity == r.velocity
    {
      var carry := player.objectCarry;
      var comps := player.scene.components;
      var target: Option<Entity> := None;
      hints := [];
      if carry.carriedEntity.None? {
        var first := FirstHit(hits, PickFilter(comps, carry.carriedEntity));
        if first.Some? {
          target := Some(first.value.entity);
          hints := hints + [PickupHint];
        }
      }
      if carry.carriedEntity.Some? {
        if PickUp in actions.enabled {
          hints := hints + [DropHint];
        }
        if Throw in actions.enabled {
          hints := hints + [ThrowHint];
        }
      }
      if shouldPickup {
        shouldPickup := false;
        if carry.carriedEntity.None? {
          carry.SetCarriedEntity(target);
        } else {
          var _ := carry.DropCarriedEntity(Vec3(0.0, 0.0, 0.0), 0.0);
        }
      }
      velocity := carry.Update(pos, holderPos, holderFront, distance);
    }
  }
}
