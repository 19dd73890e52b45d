/**
 * The world as the client script sees it (SimplePassive.Client/Extensions.cs).
 *
 * Entities are engine handles, modelled as integers with 0 standing for "no
 * entity" (a null Ped or Vehicle reference). The engine lookups the script only
 * reads (existence, attachments, seating, tasks) form the value `Scene`; the
 * engine state the script writes (the pairwise no-collision flags and the
 * per-entity alpha) lives in the object `World`, whose methods are the two
 * write primitives of Extensions.cs.
 */
module Entities {

  /** An engine handle; `NoEntity` is the null reference. */
  type Entity = int

  const NoEntity: Entity := 0

  /** Alpha value the engine treats as fully opaque. */
  const Opaque: int := 255

  /**
   * The engine lookups read by the script during one tick.
   * A key missing from a map means the lookup found nothing.
   */
  datatype Scene = Scene(
    existing: set<Entity>,              // DoesEntityExist
    trailer: map<Entity, Entity>,     // GetVehicleTrailerVehicle, when it reports success
    cargobob: map<Entity, Entity>,    // GetVehicleAttachedToCargobob
    towTruck: map<Entity, Entity>,    // GetEntityAttachedToTowTruck
    vehicleOf: map<Entity, Entity>,   // Ped.CurrentVehicle
    driverOf: map<Entity, Entity>,    // Vehicle.GetPedOnSeat(VehicleSeat.Driver)
    exemptTask: set<Entity>           // peds for which GetIsTaskActive(ped, 2) holds
  )

  /** A lookup that yields a handle or nothing. */
  function Lookup(m: map<Entity, Entity>, e: Entity): (r: Entity)
    ensures e in m ==> r == m[e]
    ensures e !in m ==> r == NoEntity
  {
    if e in m then m[e] else NoEntity
  }

  /** A handle that denotes an existing entity (`x != null && x.Exists()`). */
  predicate Live(s: Scene, e: Entity)
  {
    e != NoEntity && e in s.existing
  }

  /** The vehicle a ped currently sits in, or none. */
  function CurrentVehicle(s: Scene, ped: Entity): Entity
  {
    Lookup(s.vehicleOf, ped)
  }

  /** The ped in the driver seat of a vehicle, or none. */
  function Driver(s: Scene, vehicle: Entity): Entity
  {
    Lookup(s.driverOf, vehicle)
  }

  /**
   * GetHookedVehicle: the vehicle hooked to `vehicle`, trying the trailer hitch,
   * then the cargobob hook, then the tow truck, and none when nothing matches.
   * The trailer result is returned without an existence check; the other two
   * must denote existing entities.
   */
  function HookedVehicle(s: Scene, vehicle: Entity): (r: Entity)
    // an absent or destroyed vehicle hooks nothing
    ensures !Live(s, vehicle) ==> r == NoEntity
    // the trailer hitch has priority over everything else
    ensures Live(s, vehicle) && vehicle in s.trailer ==> r == s.trailer[vehicle]
    // without a trailer, a live cargobob load beats any tow truck load
    ensures (Live(s, vehicle) && vehicle !in s.trailer && Live(s, Lookup(s.cargobob, vehicle))) ==>
              r == s.cargobob[vehicle]
    // a result that did not come from the trailer hitch denotes an existing entity
    ensures r != NoEntity && !(vehicle in s.trailer) ==> Live(s, r)
    // anything returned is attached to the vehicle by one of the three mechanisms
    ensures r != NoEntity ==>
              Live(s, vehicle) &&
              ((vehicle in s.trailer && r == s.trailer[vehicle]) ||
               (vehicle in s.cargobob && r == s.cargobob[vehicle]) ||
               (vehicle in s.towTruck && r == s.towTruck[vehicle]))
    // none only when no mechanism yields a usable entity
    ensures r == NoEntity <==>
              !Live(s, vehicle) ||
              (vehicle in s.trailer && s.trailer[vehicle] == NoEntity) ||
              (vehicle !in s.trailer && !Live(s, Lookup(s.cargobob, vehicle)) &&
               !Live(s, Lookup(s.towTruck, vehicle)))
  {
    if !Live(s, vehicle) then NoEntity
    else if vehicle in s.trailer then s.trailer[vehicle]
    else if Live(s, Lookup(s.cargobob, vehicle)) then Lookup(s.cargobob, vehicle)
    else if Live(s, Lookup(s.towTruck, vehicle)) then Lookup(s.towTruck, vehicle)
    else NoEntity
  }

  /**
   * The lower-priority lookups are never consulted once the trailer hitch
   * answers: two scenes that agree on existence and on the trailer give the
   * same result, whatever their cargobob and tow truck attachments.
   */
  lemma TrailerShadowsHooks(s: Scene, t: Scene, vehicle: Entity)
    requires s.existing == t.existing && s.trailer == t.trailer
    requires vehicle in s.trailer
    ensures HookedVehicle(s, vehicle) == HookedVehicle(t, vehicle)
  {
  }

  /** A set of ordered pairs that contains the reverse of each of its pairs. */
  ghost predicate Symmetric(rel: set<(Entity, Entity)>)
  {
    forall p :: p in rel ==> (p.1, p.0) in rel
  }

  /**
   * The no-collision relation after ChangeCollisions(one, two, enabled): both
   * ordered pairs get the flag !enabled, every other pair keeps its flag, and a
   * null entity on either side leaves the relation as it was.
   */
  function WithCollisions(rel: set<(Entity, Entity)>, one: Entity, two: Entity, enabled: bool)
    : (r: set<(Entity, Entity)>)
    ensures one == NoEntity || two == NoEntity ==> r == rel
    ensures one != NoEntity && two != NoEntity ==>
              ((one, two) in r <==> !enabled) && ((two, one) in r <==> !enabled)
    ensures forall p :: p != (one, two) && p != (two, one) ==> (p in r <==> p in rel)
    ensures Symmetric(rel) ==> Symmetric(r)
  {
    if one == NoEntity || two == NoEntity then rel
    else if enabled then rel - {(one, two), (two, one)}
    else rel + {(one, two), (two, one)}
  }

  /** One call of ChangeCollisions, as a value. */
  datatype Toggle = Toggle(one: Entity, two: Entity, enabled: bool)

  /** The no-collision relation after a series of ChangeCollisions calls, in order. */
  function AfterToggles(rel: set<(Entity, Entity)>, calls: seq<Toggle>): set<(Entity, Entity)>
    decreases |calls|
  {
    if calls == [] then rel
    else AfterToggles(WithCollisions(rel, calls[0].one, calls[0].two, calls[0].enabled), calls[1..])
  }

  /**
   * However many ChangeCollisions calls are made, the engine never ends up with
   * a one-directional no-collision flag when it started without one.
   */
  lemma {:induction false} TogglesKeepSymmetry(rel: set<(Entity, Entity)>, calls: seq<Toggle>)
    requires Symmetric(rel)
    ensures Symmetric(AfterToggles(rel, calls))
    decreases |calls|
  {
    if calls != [] {
      var next := WithCollisions(rel, calls[0].one, calls[0].two, calls[0].enabled);
      TogglesKeepSymmetry(next, calls[1..]);
    }
  }

  /**
   * The last call on a pair decides its flag: after ChangeCollisions(a, b, e)
   * followed by calls that never name a or b, the pair (a, b) is non-colliding
   * exactly when !e.
   */
  lemma {:induction false} LastToggleWins(rel: set<(Entity, Entity)>, a: Entity, b: Entity, enabled: bool,
                                          rest: seq<Toggle>)
    requires a != NoEntity && b != NoEntity
    requires forall i :: 0 <= i < |rest| ==> rest[i].one !in {a, b} && rest[i].two !in {a, b}
    ensures (a, b) in AfterToggles(rel, [Toggle(a, b, enabled)] + rest) <==> !enabled
    ensures (b, a) in AfterToggles(rel, [Toggle(a, b, enabled)] + rest) <==> !enabled
  {
    var calls := [Toggle(a, b, enabled)] + rest;
    assert calls[1..] == rest;
    UntouchedPairs(WithCollisions(rel, a, b, enabled), a, b, rest);
  }

  /** Calls that never name a or b leave the pairs (a, b) and (b, a) alone. */
  lemma {:induction false} UntouchedPairs(rel: set<(Entity, Entity)>, a: Entity, b: Entity, calls: seq<Toggle>)
    requires forall i :: 0 <= i < |calls| ==> calls[i].one !in {a, b} && calls[i].two !in {a, b}
    ensures (a, b) in AfterToggles(rel, calls) <==> (a, b) in rel
    ensures (b, a) in AfterToggles(rel, calls) <==> (b, a) in rel
    decreases |calls|
  {
    if calls != [] {
      var next := WithCollisions(rel, calls[0].one, calls[0].two, calls[0].enabled);
      UntouchedPairs(next, a, b, calls[1..]);
    }
  }

  /** The alpha the engine keeps for an entity after SetAlpha with value a. */
  function StoredAlpha(a: int): (stored: int)
    ensures stored <= Opaque
    ensures a >= Opaque ==> stored == Opaque
    ensures a < Opaque ==> stored == a
  {
    if a >= Opaque then Opaque else a
  }

  /**
   * The alpha table after SetAlpha(e, a): a value of 255 or more resets the
   * entity to full opacity, anything lower is stored as given; no other
   * entity's alpha changes.
   */
  function AlphaAfter(alpha: map<Entity, int>, e: Entity, a: int): (r: map<Entity, int>)
    ensures e in r && r[e] <= Opaque
    ensures a >= Opaque ==> r[e] == Opaque
    ensures a < Opaque ==> r[e] == a
    ensures forall x :: x != e ==> (x in r <==> x in alpha)
    ensures forall x :: x != e && x in alpha ==> r[x] == alpha[x]
  {
    alpha[e := StoredAlpha(a)]
  }

  /** The engine state the script writes. */
  class World {
    /** Ordered pairs (x, y) for which SetEntityNoCollisionEntity(x, y, true) is in force. */
    var noCollision: set<(Entity, Entity)>
    /** Alpha of each entity the script has set or reset. */
    var alpha: map<Entity, int>

    constructor (noCollision: set<(Entity, Entity)>, alpha: map<Entity, int>)
      ensures this.noCollision == noCollision && this.alpha == alpha
    {
      this.noCollision := noCollision;
      this.alpha := alpha;
    }

    /** ChangeCollisions: sets the no-collision flag of both orders of the pair to !enabled. */
    method ChangeCollisions(one: Entity, two: Entity, enabled: bool)
      modifies this`noCollision
      ensures noCollision == WithCollisions(old(noCollision), one, two, enabled)
    {
      if one == NoEntity || two == NoEntity {
        return;
      }
      // SetEntityNoCollisionEntity(one, two, !enabled), then the reverse order
      noCollision := if enabled then noCollision - {(one, two)} else noCollision + {(one, two)};
      noCollision := if enabled then noCollision - {(two, one)} else noCollision + {(two, one)};
    }

    /** SetAlpha: resets the entity when alpha >= 255, stores alpha otherwise. */
    method SetAlpha(entity: Entity, a: int)
      requires entity != NoEntity
      modifies this`alpha
      ensures alpha == AlphaAfter(old(alpha), entity, a)
    {
      if a >= Opaque {
        alpha := alpha[entity := Opaque];
      } else {
        alpha := alpha[entity := a];
      }
    }
  }
}
