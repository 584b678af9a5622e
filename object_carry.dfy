/** The player's carrying of one physics object: which entity is held, its body, and the
    distance at which it was picked up. Each frame the held body is pulled towards the point
    that distance ahead of the holder; once it lags too far behind it is let go.

    Vector maths is exact here (reals). The body's position is an input of `Update`, as Bullet
    reports it, and so is its distance from the holder, tied to the two positions by
    `IsDistance`. */
module ObjectCarry {
  import opened Wrappers
  import opened PhysicsWorld
  import opened Scene

  /** The drop distance the constructor uses by default. */
  const DefaultDropDistance: real := 55.0

  function Add(a: Vec3, b: Vec3): Vec3 {
    Vec3(a.x + b.x, a.y + b.y, a.z + b.z)
  }

  function Sub(a: Vec3, b: Vec3): Vec3 {
    Vec3(a.x - b.x, a.y - b.y, a.z - b.z)
  }

  function Scale(v: Vec3, k: real): Vec3 {
    Vec3(v.x * k, v.y * k, v.z * k)
  }

  function SqLength(v: Vec3): real {
    v.x * v.x + v.y * v.y + v.z * v.z
  }

  /** `glm::distance(a, b)`: `d` is the non-negative number whose square is the squared length
      of `a - b`. */
  predicate IsDistance(d: real, a: Vec3, b: Vec3) {
    d >= 0.0 && d * d == SqLength(Sub(a, b))
  }

  /** `glm::length(v) >= d`, written without the square root: every length is at least a
      non-positive `d`, and for a positive one compare squares. */
  predicate LengthAtLeast(v: Vec3, d: real) {
    d <= 0.0 || SqLength(v) >= d * d
  }

  /** An impulse given to a body when it is thrown. */
  datatype Impulse = Impulse(body: BodyId, force: Vec3)

  /** The impulse `DropCarriedEntity(direction, force)` applies: only with a body held and a
      positive force, and then along `direction`, scaled by the force times 1000. */
  function DropImpulse(body: Option<BodyId>, direction: Vec3, force: real): (r: Option<Impulse>)
    ensures r.Some? <==> body.Some? && force > 0.0
    ensures r.Some? ==> r.value.body == body.value
  {
    var f := force * 1000.0;
    if body.Some? && f > 0.0 then Some(Impulse(body.value, Scale(direction, f))) else None
  }

  /** The entity and body `SetCarriedEntity(entity)` takes up: none for a null entity, for an
      entity without a `RigidBodyComponent`, or for one whose component holds a null body. */
  function CarryTarget(comps: map<Entity, Components>, entity: Option<Entity>): (r: Option<(Entity, BodyId)>)
    requires entity.Some? ==> entity.value in comps
    ensures r.Some? <==> entity.Some? && BodyOf(comps[entity.value]).Some?
    ensures r.Some? ==> r.value.0 == entity.value && Some(r.value.1) == BodyOf(comps[entity.value])
  {
    if entity.None? then None
    else match comps[entity.value].rigidBody
      case None => None
      case Some(body) => if body.None? then None else Some((entity.value, body.value))
  }

  /** The carry state: the entity, its body, and the latched pickup distance (0 until the first
      update after a pickup). */
  datatype Carry = Carry(carried: Option<Entity>, body: Option<BodyId>, pickupDistance: real)

  /** What nothing carried looks like; every drop ends here. */
  const Empty: Carry := Carry(None, None, 0.0)

  /** What taking up `t` leaves carried. */
  function Taken(t: Option<(Entity, BodyId)>): Carry {
    if t.Some? then Carry(Some(t.value.0), Some(t.value.1), 0.0) else Empty
  }

  /** The pickup toggle: when pressed, carry the target if empty-handed, otherwise drop. */
  function Toggle(s: Carry, shouldPickup: bool, comps: map<Entity, Components>, target: Option<Entity>): (r: Carry)
    requires target.Some? ==> target.value in comps
    ensures !shouldPickup ==> r == s
    ensures shouldPickup && s.carried.Some? ==> r == Empty
  {
    if !shouldPickup then s
    else if s.carried.Some? then Empty
    else Taken(CarryTarget(comps, target))
  }

  /** One update: the next carry state and the linear velocity given to the held body, if any. */
  datatype Step = Step(next: Carry, velocity: Option<Vec3>)

  /** The distance to use this frame: the latched one, or the current one when none is latched. */
  function Latched(s: Carry, distance: real): real {
    if s.pickupDistance == 0.0 then distance else s.pickupDistance
  }

  /** How far the body lags behind the point at the pickup distance ahead of the holder. */
  function Lag(pos: Vec3, holderPos: Vec3, holderFront: Vec3, pickup: real): Vec3 {
    Sub(Add(holderPos, Scale(holderFront, pickup)), pos)
  }

  /** `ObjectCarry::Update` as written: the drop rule does not look at `canDropByItself`. */
  function UpdateAsWritten(s: Carry, dropDistance: real, pos: Vec3, holderPos: Vec3, holderFront: Vec3,
                           distance: real): (r: Step)
    requires IsDistance(distance, pos, holderPos)
    ensures s.carried.None? ==> r == Step(s, None)
  {
    if s.carried.None? then Step(s, None)
    else
      var pickup := Latched(s, distance);
      var lag := Lag(pos, holderPos, holderFront, pickup);
      if LengthAtLeast(lag, dropDistance) then Step(Empty, None)
      else Step(s.(pickupDistance := pickup), Some(Scale(lag, 4.0)))
  }

  /** `ObjectCarry::Update` with the drop rule guarded by `canDropByItself`, as the flag's
      users intend: while it is off, the object is pulled along however far it lags. */
  function UpdateCorrected(s: Carry, canDropByItself: bool, dropDistance: real, pos: Vec3, holderPos: Vec3,
                           holderFront: Vec3, distance: real): (r: Step)
    requires IsDistance(distance, pos, holderPos)
    ensures s.carried.None? ==> r == Step(s, None)
  {
    if s.carried.None? then Step(s, None)
    else
      var pickup := Latched(s, distance);
      var lag := Lag(pos, holderPos, holderFront, pickup);
      if canDropByItself && LengthAtLeast(lag, dropDistance) then Step(Empty, None)
      else Step(s.(pickupDistance := pickup), Some(Scale(lag, 4.0)))
  }

  /** With the flag on, the corrected update is the update as written. */
  lemma CorrectedAgreesWhenAllowed(s: Carry, dropDistance: real, pos: Vec3, holderPos: Vec3, holderFront: Vec3,
                                   distance: real)
    requires IsDistance(distance, pos, holderPos)
    ensures UpdateCorrected(s, true, dropDistance, pos, holderPos, holderFront, distance)
      == UpdateAsWritten(s, dropDistance, pos, holderPos, holderFront, distance)
  {
  }

  /** With the flag off, the corrected update never lets go of the object; it keeps pulling it,
      with the latched distance. */
  lemma CorrectedNeverDropsWhenForbidden(s: Carry, dropDistance: real, pos: Vec3, holderPos: Vec3,
                                         holderFront: Vec3, distance: real)
    requires s.carried.Some? && IsDistance(distance, pos, holderPos)
    ensures var r := UpdateCorrected(s, false, dropDistance, pos, holderPos, holderFront, distance);
      r.next.carried == s.carried && r.next.body == s.body &&
      r.next.pickupDistance == Latched(s, distance) && r.velocity.Some?
  {
  }

  /** The update as written lets go of a held book although reading has turned the flag off:
      held at distance 1 by a holder at the origin facing +x, with the body 100 away, it is
      dropped with the default drop distance; the flag is never consulted. */
  lemma AsWrittenIgnoresFlag()
    ensures var s := Carry(Some(7), Some(3), 1.0);
      var pos := Vec3(100.0, 0.0, 0.0);
      UpdateAsWritten(s, DefaultDropDistance, pos, Vec3(0.0, 0.0, 0.0), Vec3(1.0, 0.0, 0.0), 100.0).next == Empty &&
      UpdateCorrected(s, false, DefaultDropDistance, pos, Vec3(0.0, 0.0, 0.0), Vec3(1.0, 0.0, 0.0), 100.0).next.carried == Some(7)
  {
    var lag := Lag(Vec3(100.0, 0.0, 0.0), Vec3(0.0, 0.0, 0.0), Vec3(1.0, 0.0, 0.0), 1.0);
    assert lag == Vec3(-99.0, 0.0, 0.0);
    assert SqLength(lag) == 9801.0;
  }

  /** An update as written either drops everything or keeps the carried entity and body, pulled
      by four times its lag; it drops exactly when the lag reaches the drop distance, whatever
      `canDropByItself` says. A kept object has the latched pickup distance, which is the
      measured one on the first update after a pickup. */
  lemma UpdateAsWrittenShape(s: Carry, dropDistance: real, pos: Vec3, holderPos: Vec3, holderFront: Vec3,
                             distance: real)
    requires s.carried.Some? && IsDistance(distance, pos, holderPos)
    ensures var r := UpdateAsWritten(s, dropDistance, pos, holderPos, holderFront, distance);
      (r.next == Empty && r.velocity.None?) ||
      (r.next.carried == s.carried && r.next.body == s.body &&
       r.next.pickupDistance == Latched(s, distance) &&
       r.velocity == Some(Scale(Lag(pos, holderPos, holderFront, Latched(s, distance)), 4.0)))
    ensures var r := UpdateAsWritten(s, dropDistance, pos, holderPos, holderFront, distance);
      r.next == Empty <==> LengthAtLeast(Lag(pos, holderPos, holderFront, Latched(s, distance)), dropDistance)
    ensures s.pickupDistance == 0.0 ==>
      var r := UpdateAsWritten(s, dropDistance, pos, holderPos, holderFront, distance);
      r.next.carried.Some? ==> r.next.pickupDistance == distance
  {
  }

  /** An update either drops everything or keeps the carried entity and body; a kept object has
      a latched, non-zero pickup distance when a non-zero distance was measured, and the
      velocity pulls it by four times its lag. */
  lemma UpdateCorrectedShape(s: Carry, canDropByItself: bool, dropDistance: real, pos: Vec3, holderPos: Vec3,
                             holderFront: Vec3, distance: real)
    requires s.carried.Some? && IsDistance(distance, pos, holderPos)
    ensures var r := UpdateCorrected(s, canDropByItself, dropDistance, pos, holderPos, holderFront, distance);
      (r.next == Empty && r.velocity.None?) ||
      (r.next.carried == s.carried && r.next.body == s.body &&
       r.next.pickupDistance == Latched(s, distance) &&
       r.velocity == Some(Scale(Lag(pos, holderPos, holderFront, Latched(s, distance)), 4.0)))
    ensures var r := UpdateCorrected(s, canDropByItself, dropDistance, pos, holderPos, holderFront, distance);
      r.next == Empty <==>
        canDropByItself && LengthAtLeast(Lag(pos, holderPos, holderFront, Latched(s, distance)), dropDistance)
    ensures s.pickupDistance == 0.0 && distance != 0.0 ==>
      var r := UpdateCorrected(s, canDropByItself, dropDistance, pos, holderPos, holderFront, distance);
      r.next.carried.Some? ==> r.next.pickupDistance == distance
  {
  }

  /** A non-positive drop distance lets go of every carried object on its first update. */
  lemma NonPositiveDropDistanceDrops(s: Carry, dropDistance: real, pos: Vec3, holderPos: Vec3, holderFront: Vec3,
                                     distance: real)
    requires s.carried.Some? && dropDistance <= 0.0 && IsDistance(distance, pos, holderPos)
    ensures UpdateAsWritten(s, dropDistance, pos, holderPos, holderFront, distance).next == Empty
  {
  }

  class ObjectCarry {
    const registry: Scene
    const dropDistance: real
    var canDropByItself: bool
    var carriedEntity: Option<Entity>
    var body: Option<BodyId>
    var pickupDistance: real

    /** An entity is carried exactly when a body is held, and no pickup distance is latched
        while nothing is. */
    ghost predicate Valid()
      reads this`carriedEntity, this`body, this`pickupDistance
    {
      (carriedEntity.Some? <==> body.Some?) && (carriedEntity.None? ==> pickupDistance == 0.0)
    }

    function State(): Carry
      reads this`carriedEntity, this`body, this`pickupDistance
    {
      Carry(carriedEntity, body, pickupDistance)
    }

    constructor(registry: Scene, dropDistance: real)
      ensures Valid() && this.registry == registry && this.dropDistance == dropDistance
      ensures canDropByItself && State() == Empty
    {
      this.registry := registry;
      this.dropDistance := dropDistance;
      canDropByItself := true;
      carriedEntity := None;
      body := None;
      pickupDistance := 0.0;
    }

    /** `DropCarriedEntity(direction, force)`: lets go of whatever is carried, returning the
        impulse given to the held body. */
    method DropCarriedEntity(direction: Vec3, force: real) returns (impulse: Option<Impulse>)
      modifies this`carriedEntity, this`body, this`pickupDistance
      ensures Valid() && State() == Empty
      ensures impulse == DropImpulse(old(body), direction, force)
    {
      impulse := None;
      if body.Some? {
        var f := force * 1000.0;
        if f > 0.0 {
          impulse := Some(Impulse(body.value, Scale(direction, f)));
        }
      }
      carriedEntity := None;
      body := None;
      pickupDistance := 0.0;
    }

    /** `SetCarriedEntity(entity)`: drops what is carried (with no impulse), then takes up the
        entity's body when it has one. The registry is only read. */
    method SetCarriedEntity(entity: Option<Entity>)
      requires Valid() && (entity.Some? ==> entity.value in registry.components)
      modifies this`carriedEntity, this`body, this`pickupDistance
      ensures Valid() && pickupDistance == 0.0
      ensures var t := CarryTarget(registry.components, entity);
        carriedEntity == (if t.Some? then Some(t.value.0) else None) &&
        body == (if t.Some? then Some(t.value.1) else None)
    {
      if carriedEntity.Some? {
        var _ := DropCarriedEntity(Vec3(0.0, 0.0, 0.0), 0.0);
      }
      carriedEntity := None;
      body := None;
      if entity.None? {
        return;
      }
      var rb := registry.components[entity.value].rigidBody;
      if rb.None? {
        return;
      }
      body := rb.value;
      if body.None? {
        return;
      }
      carriedEntity := entity;
    }

    /** `Update(holderPos, holderFront)` given the held body's position `pos` and its distance
        from the holder: state and velocity as `UpdateAsWritten` says; `canDropByItself` is not
        read. */
    method Update(pos: Vec3, holderPos: Vec3, holderFront: Vec3, distance: real) returns (velocity: Option<Vec3>)
      requires Valid() && IsDistance(distance, pos, holderPos)
      modifies this`carriedEntity, this`body, this`pickupDistance
      ensures Valid()
      ensures var r := UpdateAsWritten(old(State()), dropDistance, pos, holderPos, holderFront, distance);
        State() == r.next && velocity == r.velocity
    {
      velocity := None;
      if carriedEntity.None? {
        return;
      }
      if pickupDistance == 0.0 {
        pickupDistance := distance;
      }
      var lag := Sub(Add(holderPos, Scale(holderFront, pickupDistance)), pos);
      if LengthAtLeast(lag, dropDistance) {
        var _ := DropCarriedEntity(Vec3(0.0, 0.0, 0.0), 0.0);
        return;
      }
      velocity := Some(Scale(lag, 4.0));
    }
  }
}
